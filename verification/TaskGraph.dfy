/** The scheduler's data and what each of its critical sections does to them. */
module TaskGraph {
  type TaskId = nat

  /** Where a task may run: anywhere, preferably near a worker, or only on one worker. */
  datatype Affinity = Anywhere | Preferred(worker: nat) | Pinned(worker: nat)

  /** A task not yet completed. */
  datatype Vertex = Vertex(count: nat, successors: seq<TaskId>, affinity: Affinity)

  /** `nodeOf` is the node of every worker. There is a stealable queue per node and an unstealable
      queue per worker. */
  datatype Core = Core(nodeOf: seq<nat>, vertices: map<TaskId, Vertex>, created: nat, unfinished: int,
                       stealable: seq<seq<TaskId>>, unstealable: seq<seq<TaskId>>)

  ghost predicate ValidAffinity(a: Affinity, workers: nat) {
    a.Anywhere? || a.worker < workers
  }

  /** The shape that every operation keeps. */
  ghost predicate WellFormed(c: Core) {
    && |c.nodeOf| > 0 && |c.unstealable| == |c.nodeOf|
    && (forall w :: 0 <= w < |c.nodeOf| ==> c.nodeOf[w] < |c.stealable|)
    && (forall t: TaskId :: t in c.vertices ==> t < c.created && ValidAffinity(c.vertices[t].affinity, |c.nodeOf|))
  }

  function Initial(nodeOf: seq<nat>, nodes: nat): Core {
    Core(nodeOf, map[], 0, 0, seq(nodes, _ => []), seq(|nodeOf|, _ => []))
  }

  // ----- Critical sections

  /** A new vertex starts with a count of one, which only its commit takes away. */
  function Create(c: Core, a: Affinity): Core {
    c.(vertices := c.vertices[c.created := Vertex(1, [], a)], created := c.created + 1)
  }

  /** A completed predecessor adds nothing. */
  function AddDependency(c: Core, p: TaskId, s: TaskId): Core
    requires p in c.vertices ==> s in c.vertices
  {
    if p !in c.vertices then c else
      var linked := c.vertices[p := c.vertices[p].(successors := c.vertices[p].successors + [s])];
      c.(vertices := linked[s := linked[s].(count := linked[s].count + 1)])
  }

  /** Puts a released task into the queue its affinity asks for; `w` is the worker drawn at random. */
  function Push(c: Core, t: TaskId, w: nat): Core
    requires WellFormed(c) && t in c.vertices && w < |c.nodeOf|
  {
    match c.vertices[t].affinity
    case Pinned(x) => c.(unstealable := c.unstealable[x := c.unstealable[x] + [t]])
    case Preferred(x) => c.(stealable := c.stealable[c.nodeOf[x] := c.stealable[c.nodeOf[x]] + [t]])
    case Anywhere => c.(stealable := c.stealable[c.nodeOf[w] := c.stealable[c.nodeOf[w]] + [t]])
  }

  function Decrement(c: Core, t: TaskId, w: nat): Core
    requires WellFormed(c) && t in c.vertices && c.vertices[t].count > 0 && w < |c.nodeOf|
  {
    var less := c.(vertices := c.vertices[t := c.vertices[t].(count := c.vertices[t].count - 1)]);
    if less.vertices[t].count == 0 then Push(less, t, w) else less
  }

  function Erase(c: Core, t: TaskId): Core {
    c.(vertices := map u | u in c.vertices && u != t :: c.vertices[u])
  }

  /** `t` leaves the front or the back of one queue. */
  ghost predicate RemovedFrom(now: seq<seq<TaskId>>, was: seq<seq<TaskId>>, q: nat, t: TaskId) {
    && q < |was| && |was[q]| > 0
    && ((t == was[q][0] && now == was[q := was[q][1..]])
     || (t == was[q][|was[q]| - 1] && now == was[q := was[q][..|was[q]| - 1]]))
  }

  /** Worker `w` takes `t` from its own unstealable queue or from a stealable queue. */
  ghost predicate Takes(c: Core, c': Core, w: nat, t: TaskId) {
    || (c' == c.(unstealable := c'.unstealable) && RemovedFrom(c'.unstealable, c.unstealable, w, t))
    || (c' == c.(stealable := c'.stealable) && exists q: nat :: RemovedFrom(c'.stealable, c.stealable, q, t))
  }

  lemma CreateKeepsShape(c: Core, a: Affinity)
    requires WellFormed(c) && ValidAffinity(a, |c.nodeOf|)
    ensures WellFormed(Create(c, a))
  {}

  lemma AddDependencyKeepsShape(c: Core, p: TaskId, s: TaskId)
    requires WellFormed(c) && (p in c.vertices ==> s in c.vertices)
    ensures WellFormed(AddDependency(c, p, s)) && AddDependency(c, p, s).vertices.Keys == c.vertices.Keys
  {}

  lemma DecrementKeepsShape(c: Core, t: TaskId, w: nat)
    requires WellFormed(c) && t in c.vertices && c.vertices[t].count > 0 && w < |c.nodeOf|
    ensures WellFormed(Decrement(c, t, w)) && Decrement(c, t, w).vertices.Keys == c.vertices.Keys
  {}

  // ----- Counting occurrences

  /** How often `t` occurs in all the lists together. */
  ghost function Count(lists: seq<seq<TaskId>>, t: TaskId): nat {
    if |lists| == 0 then 0 else Count(lists[..|lists| - 1], t) + multiset(lists[|lists| - 1])[t]
  }

  lemma {:induction false} CountUpdate(lists: seq<seq<TaskId>>, i: nat, ts: seq<TaskId>, t: TaskId)
    requires i < |lists|
    ensures Count(lists[i := ts], t) + multiset(lists[i])[t] == Count(lists, t) + multiset(ts)[t]
  {
    var m := |lists| - 1;
    if i < m {
      CountUpdate(lists[..m], i, ts, t);
      assert lists[i := ts][..m] == lists[..m][i := ts];
    } else {
      assert lists[i := ts][..m] == lists[..m];
    }
  }

  lemma {:induction false} CountZero(lists: seq<seq<TaskId>>, t: TaskId)
    ensures Count(lists, t) == 0 <==> forall i :: 0 <= i < |lists| ==> t !in lists[i]
  {
    if |lists| == 0 {
    } else {
      var m := |lists| - 1;
      CountZero(lists[..m], t);
      assert t in lists[m] <==> multiset(lists[m])[t] > 0;
      assert forall i :: 0 <= i < m ==> lists[..m][i] == lists[i];
    }
  }

  lemma CountAppend(lists: seq<seq<TaskId>>, i: nat, s: TaskId, t: TaskId)
    requires i < |lists|
    ensures Count(lists[i := lists[i] + [s]], t) == Count(lists, t) + if t == s then 1 else 0
  {
    CountUpdate(lists, i, lists[i] + [s], t);
  }

  lemma CountRemoved(now: seq<seq<TaskId>>, was: seq<seq<TaskId>>, q: nat, s: TaskId, t: TaskId)
    requires RemovedFrom(now, was, q, s)
    ensures Count(was, t) == Count(now, t) + if t == s then 1 else 0
  {
    CountUpdate(was, q, now[q], t);
    SplitEnds(was[q], t);
  }

  lemma SplitEnds(ts: seq<TaskId>, t: TaskId)
    requires |ts| > 0
    ensures multiset(ts)[t] == multiset(ts[1..])[t] + if t == ts[0] then 1 else 0
    ensures multiset(ts)[t] == multiset(ts[..|ts| - 1])[t] + if t == ts[|ts| - 1] then 1 else 0
  {
    assert ts == [ts[0]] + ts[1..];
    assert ts == ts[..|ts| - 1] + [ts[|ts| - 1]];
  }

  /** How often a task is in a queue. */
  ghost function Queued(c: Core, t: TaskId): nat {
    Count(c.stealable, t) + Count(c.unstealable, t)
  }

  /** A decrement queues the task exactly when its count reaches zero. */
  lemma {:induction false} DecrementQueues(c: Core, t: TaskId, w: nat, u: TaskId)
    requires WellFormed(c) && t in c.vertices && c.vertices[t].count > 0 && w < |c.nodeOf|
    ensures var now := Decrement(c, t, w);
      && now.vertices == c.vertices[t := c.vertices[t].(count := c.vertices[t].count - 1)]
      && now.created == c.created && now.unfinished == c.unfinished && now.nodeOf == c.nodeOf
      && Queued(now, u) == Queued(c, u) + if u == t && c.vertices[t].count == 1 then 1 else 0
  {
    hide Count;
    if c.vertices[t].count == 1 {
      match c.vertices[t].affinity
      case Pinned(x) => CountAppend(c.unstealable, x, t, u);
      case Preferred(x) => CountAppend(c.stealable, c.nodeOf[x], t, u);
      case Anywhere => CountAppend(c.stealable, c.nodeOf[w], t, u);
    }
  }

  lemma TakeDequeues(c: Core, c': Core, w: nat, t: TaskId, u: TaskId)
    requires Takes(c, c', w, t)
    ensures Queued(c, u) == Queued(c', u) + if u == t then 1 else 0
    ensures |c'.stealable| == |c.stealable| && |c'.unstealable| == |c.unstealable|
  {
    hide Count;
    if c' == c.(unstealable := c'.unstealable) && RemovedFrom(c'.unstealable, c.unstealable, w, t) {
      CountRemoved(c'.unstealable, c.unstealable, w, t, u);
    } else {
      var q: nat :| RemovedFrom(c'.stealable, c.stealable, q, t);
      CountRemoved(c'.stealable, c.stealable, q, t, u);
    }
  }

  // ----- Where tasks are queued

  /** A stealable queue holds only tasks that are not pinned, and those with a preferred worker only when it is
      that worker's node; an unstealable queue holds only tasks pinned to its worker. */
  ghost predicate QueuesPlaced(c: Core) {
    && (forall q, t: TaskId :: 0 <= q < |c.stealable| && t in c.stealable[q] ==>
          t in c.vertices && MayWaitAt(c, c.vertices[t].affinity, q))
    && (forall q, t: TaskId :: 0 <= q < |c.unstealable| && t in c.unstealable[q] ==>
          t in c.vertices && c.vertices[t].affinity == Pinned(q))
  }

  /** A task with this affinity may wait in the stealable queue of node `q`. */
  ghost predicate MayWaitAt(c: Core, a: Affinity, q: nat) {
    match a
    case Pinned(_) => false
    case Preferred(x) => x < |c.nodeOf| && c.nodeOf[x] == q
    case Anywhere => true
  }

  lemma PushPlaced(c: Core, t: TaskId, w: nat)
    requires WellFormed(c) && t in c.vertices && w < |c.nodeOf| && QueuesPlaced(c)
    ensures QueuesPlaced(Push(c, t, w))
  {}

  lemma DecrementPlaced(c: Core, t: TaskId, w: nat)
    requires WellFormed(c) && t in c.vertices && c.vertices[t].count > 0 && w < |c.nodeOf| && QueuesPlaced(c)
    ensures QueuesPlaced(Decrement(c, t, w))
  {
    hide QueuesPlaced, Push;
    var less := c.(vertices := c.vertices[t := c.vertices[t].(count := c.vertices[t].count - 1)]);
    assert QueuesPlaced(less) by {
      SameQueuesPlaced(c, less);
    }
    if less.vertices[t].count == 0 {
      PushPlaced(less, t, w);
    }
  }

  lemma SameQueuesPlaced(c: Core, c': Core)
    requires QueuesPlaced(c) && c'.stealable == c.stealable && c'.unstealable == c.unstealable && c'.nodeOf == c.nodeOf
    requires forall t: TaskId :: t in c.vertices && Queued(c, t) > 0 ==>
      t in c'.vertices && c'.vertices[t].affinity == c.vertices[t].affinity
    ensures QueuesPlaced(c')
  {
    forall q, t: TaskId | 0 <= q < |c.stealable| && t in c.stealable[q] ensures Queued(c, t) > 0 {
      CountZero(c.stealable, t);
    }
    forall q, t: TaskId | 0 <= q < |c.unstealable| && t in c.unstealable[q] ensures Queued(c, t) > 0 {
      CountZero(c.unstealable, t);
    }
  }

  lemma TakePlaced(c: Core, c': Core, w: nat, t: TaskId)
    requires Takes(c, c', w, t) && QueuesPlaced(c)
    ensures QueuesPlaced(c')
    ensures t in c.vertices && (c.vertices[t].affinity.Pinned? ==> c.vertices[t].affinity.worker == w)
  {
    if c' == c.(unstealable := c'.unstealable) && RemovedFrom(c'.unstealable, c.unstealable, w, t) {
      assert t in c.unstealable[w];
    } else {
      var q: nat :| RemovedFrom(c'.stealable, c.stealable, q, t);
      assert t in c.stealable[q];
    }
  }
}
