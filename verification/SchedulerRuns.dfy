/** Concurrent runs of the scheduler: every interleaving of its critical sections. */
module SchedulerRuns {
  import opened TaskGraph
  import D = Digraph
  import O = Scheduler

  /** The shared data, what the threads in the middle of an operation still have to do, and a record of
      what has happened. A thread that completes `t` erases it, then decrements `pending[t]` one at a
      time, then takes `t` off the unfinished count. */
  datatype State = State(
    core: Core,
    tokens: set<TaskId>,                 // tasks whose commit has not decremented them yet
    counted: set<TaskId>,                // tasks a commit has added to the unfinished count
    taken: map<TaskId, nat>,             // tasks a worker runs
    pending: map<TaskId, seq<TaskId>>,   // successors of erased tasks still to be decremented
    completed: set<TaskId>,              // erased tasks
    finished: set<TaskId>,               // tasks taken off the unfinished count
    deps: set<(TaskId, TaskId)>,         // recorded dependencies
    released: seq<TaskId>)               // tasks in the order in which they were queued

  datatype Step =
    | Create(a: Affinity)
    | Depend(p: TaskId, s: TaskId)
    | CountCommit(t: TaskId)
    | DropToken(t: TaskId, w: nat)
    | Take(w: nat, t: TaskId, after: Core)
    | EraseTask(t: TaskId)
    | DecrementSuccessor(p: TaskId, w: nat)
    | Finish(p: TaskId)

  ghost function Start(nodeOf: seq<nat>, nodes: nat): State {
    State(Initial(nodeOf, nodes), {}, {}, map[], map[], {}, {}, {}, [])
  }

  /** When the threads take a step. A task is committed once, and dependencies are only added onto tasks
      that have not been queued. Nothing here demands that the vertices a step touches are there. */
  ghost predicate CanStep(s: State, step: Step) {
    var c := s.core;
    match step
    case Create(a) => ValidAffinity(a, |c.nodeOf|)
    case Depend(p, t) => p < c.created && (p in c.vertices ==> t < c.created && t !in s.released)
    case CountCommit(t) => t < c.created && t !in s.counted
    case DropToken(t, w) => t in s.tokens && t in s.counted && w < |c.nodeOf|
    case Take(w, t, after) => w < |c.nodeOf| && Takes(c, after, w, t)
    case EraseTask(t) => t in s.taken
    case DecrementSuccessor(p, w) => p in s.pending && |s.pending[p]| > 0 && w < |c.nodeOf|
    case Finish(p) => p in s.pending && s.pending[p] == []
  }

  /** The source's assertions: the vertices are there, and no count goes below zero. */
  ghost predicate Safe(s: State, step: Step)
    requires CanStep(s, step)
  {
    var c := s.core;
    WellFormed(c) &&
    match step
    case Depend(p, t) => p in c.vertices ==> t in c.vertices && c.vertices[t].count > 0
    case CountCommit(t) => t in c.vertices
    case DropToken(t, w) => CanDecrement(c, t, w)
    case EraseTask(t) => t in c.vertices
    case DecrementSuccessor(p, w) => CanDecrement(c, s.pending[p][0], w)
    case _ => true
  }

  ghost predicate Enabled(s: State, step: Step) {
    CanStep(s, step) && Safe(s, step)
  }

  ghost predicate CanDecrement(c: Core, t: TaskId, w: nat) {
    WellFormed(c) && t in c.vertices && c.vertices[t].count > 0 && w < |c.nodeOf|
  }

  ghost function Lower(s: State, t: TaskId, w: nat): State
    requires CanDecrement(s.core, t, w)
  {
    s.(core := Decrement(s.core, t, w),
       released := if s.core.vertices[t].count == 1 then s.released + [t] else s.released)
  }

  ghost function Apply(s: State, step: Step): State
    requires Enabled(s, step)
  {
    var c := s.core;
    match step
    case Create(a) => s.(core := TaskGraph.Create(c, a), tokens := s.tokens + {c.created})
    case Depend(p, t) =>
      s.(core := AddDependency(c, p, t), deps := if p in c.vertices then s.deps + {(p, t)} else s.deps)
    case CountCommit(t) => s.(core := c.(unfinished := c.unfinished + 1), counted := s.counted + {t})
    case DropToken(t, w) => Lower(s, t, w).(tokens := s.tokens - {t})
    case Take(w, t, after) => s.(core := after, taken := s.taken[t := w])
    case EraseTask(t) =>
      s.(core := Erase(c, t), taken := s.taken - {t}, completed := s.completed + {t},
         pending := s.pending[t := c.vertices[t].successors])
    case DecrementSuccessor(p, w) =>
      Lower(s, s.pending[p][0], w).(pending := s.pending[p := s.pending[p][1..]])
    case Finish(p) =>
      s.(core := c.(unfinished := c.unfinished - 1), pending := s.pending - {p}, finished := s.finished + {p})
  }

  ghost predicate Next(s: State, s': State) {
    exists step :: Enabled(s, step) && s' == Apply(s, step)
  }

  // ----- The invariant

  /** The tasks that still owe a decrement to their successors, live and erased ones alike. */
  ghost function Outgoing(s: State): (out: seq<seq<TaskId>>)
    ensures |out| == s.core.created
    ensures forall p: TaskId :: 0 <= p < |out| ==> out[p] == Owes(s, p)
  {
    seq(s.core.created, p requires 0 <= p => Owes(s, p))
  }

  ghost function Owes(s: State, p: nat): seq<TaskId> {
    if p in s.core.vertices then s.core.vertices[p].successors
    else if p in s.pending then s.pending[p] else []
  }

  ghost predicate Ids(s: State) {
    && WellFormed(s.core)
    && (forall t: TaskId :: t in s.core.vertices <==> t < s.core.created && t !in s.completed)
    && (forall t: TaskId :: t in s.completed ==> t < s.core.created)
    && (forall t: TaskId :: t in s.pending <==> t in s.completed && t !in s.finished)
    && s.finished <= s.completed
    && (forall t: TaskId :: t in s.tokens ==> t in s.core.vertices)
    && (forall t: TaskId :: t in s.counted ==> t < s.core.created)
    && (forall t: TaskId :: t < s.core.created && t !in s.counted ==> t in s.tokens)
  }

  ghost function Token(s: State, t: TaskId): nat {
    if t in s.tokens then 1 else 0
  }

  /** The predecessor count is the commit token plus the decrements still owed. */
  ghost predicate Counts(s: State) {
    && (forall t: TaskId {:trigger s.core.vertices[t]} :: t in s.core.vertices ==>
          s.core.vertices[t].count == Token(s, t) + Count(Outgoing(s), t))
    && (forall t: TaskId :: t !in s.core.vertices ==> Count(Outgoing(s), t) == 0)
  }

  ghost predicate Ready(s: State, t: TaskId) {
    t in s.core.vertices && s.core.vertices[t].count == 0
  }

  /** A live task is queued or taken exactly when its count is zero, and then in one place only. */
  ghost predicate InOnePlace(s: State) {
    forall t: TaskId :: Queued(s.core, t) + (if t in s.taken then 1 else 0) == if Ready(s, t) then 1 else 0
  }

  ghost predicate NoRepeats(ts: seq<TaskId>) {
    forall i, j :: 0 <= i < j < |ts| ==> ts[i] != ts[j]
  }

  ghost predicate ReleasedOnce(s: State) {
    && NoRepeats(s.released)
    && forall t: TaskId :: t in s.released <==> Ready(s, t) || t in s.completed
  }

  ghost predicate Recorded(s: State) {
    forall p: TaskId, t: TaskId {:trigger (p, t) in s.deps} :: (p, t) in s.deps ==>
      && p < s.core.created && t < s.core.created
      && (p in s.core.vertices ==> t in s.core.vertices[p].successors)
  }

  ghost predicate Tally(s: State) {
    && s.finished <= s.counted
    && s.core.unfinished == |s.counted| - |s.finished|
  }

  /** Tasks are queued where their affinity says, and pinned tasks taken by their worker. */
  ghost predicate Placed(s: State) {
    && (forall t: TaskId :: t in s.taken && t in s.core.vertices && s.core.vertices[t].affinity.Pinned? ==>
          s.taken[t] == s.core.vertices[t].affinity.worker)
    && (forall t: TaskId :: t in s.taken ==> s.taken[t] < |s.core.nodeOf|)
    && QueuesPlaced(s.core)
  }

  ghost predicate Inv(s: State) {
    Ids(s) && Counts(s) && InOnePlace(s) && ReleasedOnce(s) && Recorded(s) && Tally(s) && Placed(s)
  }

  // ----- What every step keeps

  lemma ShapeKept(s: State, step: Step)
    requires WellFormed(s.core) && Enabled(s, step)
    ensures WellFormed(Apply(s, step).core)
  {
    match step {
      case Create(a) => CreateKeepsShape(s.core, a);
      case Depend(p, t) => AddDependencyKeepsShape(s.core, p, t);
      case DropToken(t, w) => DecrementKeepsShape(s.core, t, w);
      case DecrementSuccessor(p, w) => DecrementKeepsShape(s.core, s.pending[p][0], w);
      case Take(w, t, after) => TakeDequeues(s.core, after, w, t, t);
      case _ =>
    }
  }

  /** The live vertices after a step. */
  lemma LiveAfter(s: State, step: Step)
    requires Enabled(s, step)
    ensures Apply(s, step).core.created == s.core.created + if step.Create? then 1 else 0
    ensures Apply(s, step).core.vertices.Keys == match step
      case Create(_) => s.core.vertices.Keys + {s.core.created}
      case EraseTask(t) => s.core.vertices.Keys - {t}
      case _ => s.core.vertices.Keys
  {
    hide WellFormed;
    match step {
      case Depend(p, t) => AddDependencyKeepsShape(s.core, p, t);
      case DropToken(t, w) => DecrementKeepsShape(s.core, t, w);
      case DecrementSuccessor(p, w) => DecrementKeepsShape(s.core, s.pending[p][0], w);
      case _ =>
    }
  }

  lemma IdsKept(s: State, step: Step)
    requires Ids(s) && Enabled(s, step) && (step.EraseTask? ==> step.t !in s.tokens)
    ensures Ids(Apply(s, step))
  {
    hide WellFormed, Decrement, AddDependency, TaskGraph.Create, Erase, Takes;
    ShapeKept(s, step);
    LiveAfter(s, step);
    var s' := Apply(s, step);
    assert forall t: TaskId :: t in s'.core.vertices <==> t in s'.core.vertices.Keys;
  }

  /** The task a step decrements, if any. */
  ghost predicate Lowers(s: State, step: Step, u: TaskId)
    requires Enabled(s, step)
  {
    (step.DropToken? && step.t == u) || (step.DecrementSuccessor? && s.pending[step.p][0] == u)
  }

  /** The task a step adds a recorded dependency onto, if any. */
  ghost predicate Raises(s: State, step: Step, u: TaskId) {
    step.Depend? && step.p in s.core.vertices && step.s == u
  }

  lemma OwedAfter(s: State, step: Step, u: TaskId)
    requires Ids(s) && Enabled(s, step)
    ensures Count(Outgoing(Apply(s, step)), u) == Count(Outgoing(s), u)
      + (if Raises(s, step, u) then 1 else 0)
      - (if step.DecrementSuccessor? && Lowers(s, step, u) then 1 else 0)
  {
    hide Count, WellFormed, Queued, Takes, ValidAffinity;
    var s' := Apply(s, step);
    match step {
      case Create(a) =>
        assert Outgoing(s') == Outgoing(s) + [[]];
        CountOneMore(Outgoing(s), [], u);
      case Depend(p, t) =>
        if p in s.core.vertices {
          assert Outgoing(s') == Outgoing(s)[p := Outgoing(s)[p] + [t]];
          CountAppend(Outgoing(s), p, t, u);
        }
      case DropToken(t, w) =>
        DecrementQueues(s.core, t, w, u);
        assert Outgoing(s') == Outgoing(s);
      case DecrementSuccessor(p, w) =>
        OwedAfterDecrement(s, p, w, u);
      case _ =>
        SameOwed(s, step);
    }
  }

  lemma OwedAfterDecrement(s: State, p: TaskId, w: nat, u: TaskId)
    requires Ids(s) && Enabled(s, DecrementSuccessor(p, w))
    ensures Count(Outgoing(s), u) ==
      Count(Outgoing(Apply(s, DecrementSuccessor(p, w))), u) + if s.pending[p][0] == u then 1 else 0
  {
    hide Count, WellFormed, Queued;
    var s', ts := Apply(s, DecrementSuccessor(p, w)), s.pending[p];
    DecrementQueues(s.core, ts[0], w, u);
    assert Outgoing(s') == Outgoing(s)[p := ts[1..]];
    CountUpdate(Outgoing(s), p, ts[1..], u);
    SplitEnds(ts, u);
  }

  /** Completing a task hands its successors over; the other steps do not touch them. */
  lemma SameOwed(s: State, step: Step)
    requires Ids(s) && Enabled(s, step)
    requires step.CountCommit? || step.Take? || step.EraseTask? || step.Finish?
    ensures Outgoing(Apply(s, step)) == Outgoing(s)
  {
    hide WellFormed, Takes;
    var s' := Apply(s, step);
    if step.Take? {
      TakeLeavesVertices(s.core, step.after, step.w, step.t);
    }
    forall p | 0 <= p < s.core.created ensures Owes(s', p) == Owes(s, p) {}
  }

  lemma TakeLeavesVertices(c: Core, c': Core, w: nat, t: TaskId)
    requires Takes(c, c', w, t)
    ensures c'.vertices == c.vertices && c'.created == c.created && c'.unfinished == c.unfinished
    ensures c'.nodeOf == c.nodeOf
  {}

  lemma CountOneMore(lists: seq<seq<TaskId>>, ts: seq<TaskId>, t: TaskId)
    ensures Count(lists + [ts], t) == Count(lists, t) + multiset(ts)[t]
  {
    assert (lists + [ts])[..|lists|] == lists;
  }

  /** What a step does to the count and the affinity of a live task. */
  lemma VertexAfter(s: State, step: Step, u: TaskId)
    requires Enabled(s, step) && u in Apply(s, step).core.vertices
    ensures step.Create? && u == s.core.created ==> Apply(s, step).core.vertices[u].count == 1
    ensures !(step.Create? && u == s.core.created) ==>
      && u in s.core.vertices && Apply(s, step).core.vertices[u].affinity == s.core.vertices[u].affinity
      && Apply(s, step).core.vertices[u].count == s.core.vertices[u].count
           + (if Raises(s, step, u) then 1 else 0) - (if Lowers(s, step, u) then 1 else 0)
  {
    hide WellFormed, Queued, Takes;
    match step {
      case DropToken(t, w) => DecrementQueues(s.core, t, w, u);
      case DecrementSuccessor(p, w) => DecrementQueues(s.core, s.pending[p][0], w, u);
      case Take(w, t, after) => TakeLeavesVertices(s.core, after, w, t);
      case _ =>
    }
  }

  lemma CountsKept(s: State, step: Step)
    requires Ids(s) && Counts(s) && Enabled(s, step) && (step.EraseTask? ==> Ready(s, step.t))
    ensures Counts(Apply(s, step))
  {
    hide Outgoing, Count, Apply, Ids, WellFormed, Takes;
    var s' := Apply(s, step);
    LiveAfter(s, step);
    TokensAfter(s, step);
    forall u: TaskId ensures u in s'.core.vertices ==> s'.core.vertices[u].count == Token(s', u) + Count(Outgoing(s'), u) {
      OwedAfter(s, step, u);
      if u in s'.core.vertices {
        VertexAfter(s, step, u);
      }
    }
    forall u: TaskId | u !in s'.core.vertices ensures Count(Outgoing(s'), u) == 0 {
      OwedAfter(s, step, u);
      assert u in s'.core.vertices <==> u in s'.core.vertices.Keys;
      if Raises(s, step, u) || Lowers(s, step, u) {
        OnlyLive(s, step, u);
        assert false;
      }
    }
  }

  lemma TokensAfter(s: State, step: Step)
    requires Ids(s) && Enabled(s, step)
    ensures Apply(s, step).tokens == match step
      case Create(_) => s.tokens + {s.core.created}
      case DropToken(t, _) => s.tokens - {t}
      case _ => s.tokens
    ensures step.Create? ==> s.core.created !in s.core.vertices
    ensures step.DropToken? ==> step.t in s.tokens
  {
    hide WellFormed, Decrement, Takes, AddDependency;
  }

  lemma OnlyLive(s: State, step: Step, u: TaskId)
    requires Enabled(s, step) && (Raises(s, step, u) || Lowers(s, step, u))
    ensures u in s.core.vertices && s.core.vertices[u].count > 0
  {
    hide WellFormed, Decrement, Takes;
  }

  /** A step releases the task whose count it brings to zero. */
  ghost predicate Releases(s: State, step: Step, u: TaskId)
    requires Enabled(s, step)
  {
    Lowers(s, step, u) && u in s.core.vertices && s.core.vertices[u].count == 1
  }

  lemma QueuedAfter(s: State, step: Step, u: TaskId)
    requires Enabled(s, step)
    ensures Queued(Apply(s, step).core, u) == Queued(s.core, u)
      + (if Releases(s, step, u) then 1 else 0) - (if step.Take? && step.t == u then 1 else 0)
    ensures u in Apply(s, step).taken <==>
      (u in s.taken || (step.Take? && step.t == u)) && !(step.EraseTask? && step.t == u)
  {
    hide WellFormed, Takes, Count;
    match step {
      case DropToken(t, w) => DecrementQueues(s.core, t, w, u);
      case DecrementSuccessor(p, w) => DecrementQueues(s.core, s.pending[p][0], w, u);
      case Take(w, t, after) => TakeDequeues(s.core, after, w, t, u);
      case _ =>
    }
  }

  lemma ReadyAfter(s: State, step: Step, u: TaskId)
    requires Ids(s) && Enabled(s, step)
    ensures Ready(Apply(s, step), u) <==>
      (Ready(s, u) || Releases(s, step, u)) && !(step.EraseTask? && step.t == u)
    ensures Releases(s, step, u) ==> !Ready(s, u) && u !in s.completed
  {
    hide Apply, WellFormed, Takes;
    LiveAfter(s, step);
    var s' := Apply(s, step);
    assert u in s'.core.vertices <==> u in s'.core.vertices.Keys;
    if u in s'.core.vertices {
      VertexAfter(s, step, u);
    }
    if Raises(s, step, u) || Lowers(s, step, u) {
      OnlyLive(s, step, u);
    }
  }

  lemma InOnePlaceKept(s: State, step: Step)
    requires Ids(s) && InOnePlace(s) && Enabled(s, step)
    ensures InOnePlace(Apply(s, step))
  {
    hide Apply, Enabled, Ids, Queued, Ready, Releases;
    var s' := Apply(s, step);
    forall u: TaskId ensures Queued(s'.core, u) + (if u in s'.taken then 1 else 0) == if Ready(s', u) then 1 else 0 {
      QueuedAfter(s, step, u);
      ReadyAfter(s, step, u);
      TakesQueued(s, step, u);
      assert Queued(s.core, u) + (if u in s.taken then 1 else 0) == if Ready(s, u) then 1 else 0;
    }
  }

  lemma TakesQueued(s: State, step: Step, u: TaskId)
    requires Enabled(s, step)
    ensures step.Take? && step.t == u ==> Queued(s.core, u) > 0
    ensures step.EraseTask? && step.t == u ==> u in s.taken
  {
    hide WellFormed, Takes, Queued;
    if step.Take? {
      TakeDequeues(s.core, step.after, step.w, step.t, u);
    }
  }

  ghost function ReleasedBy(s: State, step: Step): seq<TaskId>
    requires Enabled(s, step)
  {
    if step.DropToken? && Releases(s, step, step.t) then [step.t]
    else if step.DecrementSuccessor? && Releases(s, step, s.pending[step.p][0]) then [s.pending[step.p][0]]
    else []
  }

  lemma ReleasedAfter(s: State, step: Step)
    requires Enabled(s, step)
    ensures Apply(s, step).released == s.released + ReleasedBy(s, step)
    ensures |ReleasedBy(s, step)| <= 1
    ensures forall u: TaskId :: u in ReleasedBy(s, step) <==> Releases(s, step, u)
    ensures Apply(s, step).completed == s.completed + if step.EraseTask? then {step.t} else {}
  {
    hide WellFormed, Takes;
  }

  lemma ReleasedOnceKept(s: State, step: Step)
    requires Ids(s) && ReleasedOnce(s) && InOnePlace(s) && Enabled(s, step)
    ensures ReleasedOnce(Apply(s, step))
  {
    hide Apply, Enabled, Ids, Queued, Ready, Releases, ReleasedBy;
    var s' := Apply(s, step);
    ReleasedAfter(s, step);
    forall u: TaskId ensures u in s'.released <==> Ready(s', u) || u in s'.completed {
      ReadyAfter(s, step, u);
      TakesQueued(s, step, u);
      assert u in s'.released <==> u in s.released || u in ReleasedBy(s, step);
    }
    if |ReleasedBy(s, step)| == 1 {
      var u := ReleasedBy(s, step)[0];
      assert u in ReleasedBy(s, step);
      ReadyAfter(s, step, u);
      assert u !in s.released;
      assert ReleasedBy(s, step) == [u];
    } else {
      assert s'.released == s.released;
    }
  }

  lemma RecordedKept(s: State, step: Step)
    requires Ids(s) && Recorded(s) && Enabled(s, step)
    ensures Recorded(Apply(s, step))
  {
    hide WellFormed, Takes, Ids;
    var s' := Apply(s, step);
    LiveAfter(s, step);
    forall p: TaskId, t: TaskId | (p, t) in s'.deps
      ensures p < s'.core.created && t < s'.core.created
      ensures p in s'.core.vertices ==> t in s'.core.vertices[p].successors
    {
      assert p in s'.core.vertices <==> p in s'.core.vertices.Keys;
      if p in s'.core.vertices {
        SuccessorsAfter(s, step, p);
      }
      DependsOnCreated(s, step);
      assert (p, t) in s.deps || (step.Depend? && p == step.p && t == step.s && p in s.core.vertices);
    }
  }

  lemma DependsOnCreated(s: State, step: Step)
    requires Ids(s) && Enabled(s, step)
    ensures step.Depend? && step.p in s.core.vertices ==> step.p < s.core.created && step.s < s.core.created
    ensures step.Create? ==> forall t: TaskId :: (s.core.created, t) in s.deps ==> s.core.created !in s.core.vertices
  {}

  lemma SuccessorsAfter(s: State, step: Step, p: TaskId)
    requires Enabled(s, step) && p in Apply(s, step).core.vertices
    ensures p in s.core.vertices || (step.Create? && p == s.core.created)
    ensures p in s.core.vertices && !(step.Create? && p == s.core.created) ==>
      Apply(s, step).core.vertices[p].successors == s.core.vertices[p].successors
        + if step.Depend? && step.p == p then [step.s] else []
  {
    hide WellFormed, Takes;
    match step {
      case DropToken(t, w) => DecrementQueues(s.core, t, w, p);
      case DecrementSuccessor(q, w) => DecrementQueues(s.core, s.pending[q][0], w, p);
      case Take(w, t, after) => TakeLeavesVertices(s.core, after, w, t);
      case _ =>
    }
  }

  lemma TallyKept(s: State, step: Step)
    requires Ids(s) && Tally(s) && Enabled(s, step)
    ensures Tally(Apply(s, step))
  {
    hide WellFormed, Takes, Decrement, AddDependency, Ids;
    CountedAndFinished(s, step);
    match step {
      case DropToken(t, w) => DecrementQueues(s.core, t, w, t);
      case Take(w, t, after) => TakeLeavesVertices(s.core, after, w, t);
      case DecrementSuccessor(p, w) => DecrementQueues(s.core, s.pending[p][0], w, p);
      case Depend(p, t) => assert AddDependency(s.core, p, t).unfinished == s.core.unfinished by { LinkOnly(s.core, p, t); }
      case _ =>
    }
  }

  lemma LinkOnly(c: Core, p: TaskId, t: TaskId)
    requires p in c.vertices ==> t in c.vertices
    ensures AddDependency(c, p, t).unfinished == c.unfinished
  {}

  lemma CountedAndFinished(s: State, step: Step)
    requires Ids(s) && Enabled(s, step)
    ensures step.CountCommit? ==> step.t !in s.counted
    ensures step.Finish? ==> step.p in s.counted && step.p !in s.finished
  {
    hide WellFormed, Takes, Decrement;
  }

  lemma PlacedKept(s: State, step: Step)
    requires Ids(s) && Placed(s) && InOnePlace(s) && Enabled(s, step)
    ensures Placed(Apply(s, step))
  {
    hide Apply, Ids, Queued, Ready, QueuesPlaced, Lowers, Raises;
    var s' := Apply(s, step);
    QueuesPlacedAfter(s, step);
    LiveAfter(s, step);
    TakenAfter(s, step);
    forall t: TaskId | t in s'.taken && t in s'.core.vertices && s'.core.vertices[t].affinity.Pinned?
      ensures s'.taken[t] == s'.core.vertices[t].affinity.worker
    {
      VertexAfter(s, step, t);
      NewIsNotTaken(s, step);
    }
    NodesKept(s, step);
    WorkerExists(s, step);
  }

  lemma WorkerExists(s: State, step: Step)
    requires Enabled(s, step)
    ensures step.Take? ==> step.w < |s.core.nodeOf|
  {
    hide Takes, WellFormed;
  }

  lemma TakenAfter(s: State, step: Step)
    requires Enabled(s, step) && QueuesPlaced(s.core)
    ensures forall t: TaskId :: t in Apply(s, step).taken ==>
      (t in s.taken && Apply(s, step).taken[t] == s.taken[t]) || (step.Take? && step.t == t)
    ensures step.Take? ==> step.t in s.core.vertices && Apply(s, step).taken[step.t] == step.w
    ensures step.Take? && s.core.vertices[step.t].affinity.Pinned? ==>
      s.core.vertices[step.t].affinity.worker == step.w
  {
    hide WellFormed, Takes, QueuesPlaced;
    if step.Take? {
      TakePlaced(s.core, step.after, step.w, step.t);
    }
  }

  lemma NewIsNotTaken(s: State, step: Step)
    requires Ids(s) && InOnePlace(s)
    ensures s.core.created !in s.taken && s.core.created !in s.core.vertices
  {
    hide Queued;
    assert !Ready(s, s.core.created);
  }

  lemma QueuesPlacedAfter(s: State, step: Step)
    requires Ids(s) && QueuesPlaced(s.core) && InOnePlace(s) && Enabled(s, step)
    ensures QueuesPlaced(Apply(s, step).core)
  {
    hide QueuesPlaced, WellFormed, Takes, Queued, Ready;
    var c, c' := s.core, Apply(s, step).core;
    match step {
      case DropToken(t, w) => DecrementPlaced(c, t, w);
      case DecrementSuccessor(p, w) => DecrementPlaced(c, s.pending[p][0], w);
      case Take(w, t, after) => TakePlaced(c, after, w, t);
      case Create(a) => SameQueuesPlaced(c, c');
      case Depend(p, t) => SameQueuesPlaced(c, c');
      case CountCommit(t) => SameQueuesPlaced(c, c');
      case EraseTask(t) =>
        assert Queued(c, t) == 0;
        SameQueuesPlaced(c, c');
      case Finish(p) => SameQueuesPlaced(c, c');
    }
  }

  /** Every step keeps the invariant. */
  lemma InvKept(s: State, step: Step)
    requires Inv(s) && Enabled(s, step)
    ensures Inv(Apply(s, step))
  {
    hide Apply, Enabled, Ids, Counts, InOnePlace, ReleasedOnce, Recorded, Tally, Placed, Ready;
    if step.EraseTask? {
      TakenIsReady(s, step);
    }
    IdsKept(s, step);
    CountsKept(s, step);
    InOnePlaceKept(s, step);
    ReleasedOnceKept(s, step);
    RecordedKept(s, step);
    TallyKept(s, step);
    PlacedKept(s, step);
  }

  lemma TakenIsReady(s: State, step: Step)
    requires InOnePlace(s) && Counts(s) && Enabled(s, step) && step.EraseTask?
    ensures Ready(s, step.t) && step.t !in s.tokens
  {
    hide Queued, WellFormed, Count, Outgoing;
    TakesQueued(s, step, step.t);
  }

  lemma InvAtStart(nodeOf: seq<nat>, nodes: nat)
    requires |nodeOf| > 0 && forall w :: 0 <= w < |nodeOf| ==> nodeOf[w] < nodes
    ensures Inv(Start(nodeOf, nodes))
  {
    var s := Start(nodeOf, nodes);
    forall t: TaskId ensures Queued(s.core, t) == 0 && Count(Outgoing(s), t) == 0 {
      CountZero(s.core.stealable, t);
      CountZero(s.core.unstealable, t);
    }
  }

  // ----- Runs

  /** A run from the start: any number of steps of any threads. */
  ghost predicate Run(run: seq<State>, nodeOf: seq<nat>, nodes: nat) {
    && |nodeOf| > 0 && (forall w :: 0 <= w < |nodeOf| ==> nodeOf[w] < nodes)
    && |run| > 0 && run[0] == Start(nodeOf, nodes)
    && forall i :: 0 <= i < |run| - 1 ==> Next(run[i], run[i + 1])
  }

  lemma {:induction false} RunKeepsInv(run: seq<State>, nodeOf: seq<nat>, nodes: nat, i: nat)
    requires Run(run, nodeOf, nodes) && i < |run|
    ensures Inv(run[i])
  {
    hide Inv, Enabled, Apply;
    if i == 0 {
      InvAtStart(nodeOf, nodes);
    } else {
      RunKeepsInv(run, nodeOf, nodes, i - 1);
      assert Next(run[i - 1], run[i]);
      var step :| Enabled(run[i - 1], step) && run[i] == Apply(run[i - 1], step);
      InvKept(run[i - 1], step);
    }
  }

  // ----- The assertions of the source never fail

  lemma CountAtLeast(lists: seq<seq<TaskId>>, i: nat, t: TaskId)
    requires i < |lists|
    ensures multiset(lists[i])[t] <= Count(lists, t)
  {
    CountUpdate(lists, i, [], t);
  }

  /** Whoever is owed a decrement is there, with a count that covers it. */
  lemma OwedIsLive(s: State, p: TaskId, t: TaskId)
    requires Ids(s) && Counts(s) && p < s.core.created && t in Outgoing(s)[p]
    ensures t in s.core.vertices && s.core.vertices[t].count > 0
    ensures multiset(Outgoing(s)[p])[t] <= s.core.vertices[t].count
  {
    hide WellFormed;
    CountAtLeast(Outgoing(s), p, t);
    assert multiset(Outgoing(s)[p])[t] > 0;
  }

  /** Whatever the threads do next, the vertices they touch are there and no count goes below zero. */
  lemma StepIsSafe(s: State, step: Step)
    requires Inv(s) && CanStep(s, step)
    ensures Safe(s, step)
  {
    assert WellFormed(s.core);
    hide WellFormed, Recorded, Tally, Placed, InOnePlace, ReleasedOnce, Counts, Outgoing, Takes;
    match step {
      case Depend(p, t) =>
        if p in s.core.vertices {
          UnreleasedIsLive(s, t);
        }
      case DropToken(t, w) => TokenIsLive(s, t);
      case EraseTask(t) => TakenIsLive(s, t);
      case DecrementSuccessor(p, w) =>
        assert p < s.core.created && s.pending[p][0] in Outgoing(s)[p];
        OwedIsLive(s, p, s.pending[p][0]);
      case _ =>
    }
  }

  lemma UnreleasedIsLive(s: State, t: TaskId)
    requires Ids(s) && ReleasedOnce(s) && t < s.core.created && t !in s.released
    ensures t in s.core.vertices && s.core.vertices[t].count > 0
  {
    hide WellFormed;
    assert !Ready(s, t);
  }

  lemma TokenIsLive(s: State, t: TaskId)
    requires Ids(s) && Counts(s) && t in s.tokens
    ensures t in s.core.vertices && s.core.vertices[t].count > 0
  {
    hide WellFormed, Outgoing;
  }

  lemma TakenIsLive(s: State, t: TaskId)
    requires InOnePlace(s) && t in s.taken
    ensures t in s.core.vertices && s.core.vertices[t].count == 0
  {
    hide Queued;
    assert Ready(s, t);
  }

  /** In every reachable state every step a thread can take is safe: a decremented or erased vertex
      always exists, and a decremented count is positive. */
  lemma AssertionsHold(run: seq<State>, nodeOf: seq<nat>, nodes: nat, i: nat, step: Step)
    requires Run(run, nodeOf, nodes) && i < |run| && CanStep(run[i], step)
    ensures Safe(run[i], step)
  {
    hide Inv, Run, CanStep, Safe;
    RunKeepsInv(run, nodeOf, nodes, i);
    StepIsSafe(run[i], step);
  }

  /** A completed task's successors are there with counts that cover their occurrences: the whole row of
      decrements goes through. */
  lemma CompletionCovered(s: State, t: TaskId)
    requires Inv(s) && t in s.taken
    ensures t in s.core.vertices && O.Covers(Erase(s.core, t), s.core.vertices[t].successors)
  {
    hide WellFormed, Queued, Recorded, Tally, Placed;
    assert Ready(s, t);
    forall u: TaskId | u in s.core.vertices[t].successors
      ensures u in Erase(s.core, t).vertices
      ensures multiset(s.core.vertices[t].successors)[u] <= Erase(s.core, t).vertices[u].count
    {
      OwedIsLive(s, t, u);
    }
  }

  /** In every run each task is queued at most once, and only when it has been committed and every
      predecessor recorded for it has completed. Counts are as they should be throughout. */
  lemma {:induction false} QueuedOnceAfterPredecessors(run: seq<State>, nodeOf: seq<nat>, nodes: nat, i: nat, t: TaskId)
    requires Run(run, nodeOf, nodes) && i < |run|
    ensures var s := run[i];
      && NoRepeats(s.released)
      && Queued(s.core, t) <= 1
      && (t in s.released ==> t in s.counted && forall p: TaskId :: (p, t) in s.deps ==> p in s.completed)
      && (t in s.core.vertices ==> s.core.vertices[t].count == Token(s, t) + Count(Outgoing(s), t))
  {
    RunKeepsInv(run, nodeOf, nodes, i);
    var s := run[i];
    hide Queued, WellFormed, Placed, Tally, Outgoing;
    if t in s.released {
      assert Count(Outgoing(s), t) == 0;
      forall p: TaskId | (p, t) in s.deps ensures p in s.completed {
        NotOwedAnyMore(s, p, t);
      }
    }
  }

  lemma NotOwedAnyMore(s: State, p: TaskId, t: TaskId)
    requires Ids(s) && Recorded(s) && (p, t) in s.deps && Count(Outgoing(s), t) == 0
    ensures p in s.completed
  {
    hide WellFormed;
    if p in s.core.vertices {
      assert t in Outgoing(s)[p];
      CountZero(Outgoing(s), t);
    }
  }

  /** The unfinished count is the number of committed tasks that are not finished, so it is zero only
      when every committed task has completed and all its successors have been decremented. */
  lemma FinishedMeansNothingOutstanding(run: seq<State>, nodeOf: seq<nat>, nodes: nat, i: nat)
    requires Run(run, nodeOf, nodes) && i < |run|
    ensures run[i].core.unfinished == |run[i].counted - run[i].finished|
    ensures run[i].core.unfinished == 0 <==> run[i].counted <= run[i].finished
    ensures run[i].core.unfinished == 0 ==> run[i].pending == map[] && run[i].counted == run[i].completed
  {
    RunKeepsInv(run, nodeOf, nodes, i);
    var s := run[i];
    hide WellFormed, Counts, InOnePlace, ReleasedOnce, Recorded, Placed;
    assert s.counted == (s.counted - s.finished) + s.finished;
    if s.core.unfinished == 0 {
      assert s.counted - s.finished == {};
      assert s.completed <= s.counted;
      forall t: TaskId ensures t !in s.pending {}
    }
  }

  /** A task only runs on a worker its affinity allows. */
  lemma PinnedTasksStayHome(run: seq<State>, nodeOf: seq<nat>, nodes: nat, i: nat, t: TaskId)
    requires Run(run, nodeOf, nodes) && i < |run| && t in run[i].taken
    ensures t in run[i].core.vertices
    ensures run[i].core.vertices[t].affinity.Pinned? ==> run[i].taken[t] == run[i].core.vertices[t].affinity.worker
  {
    RunKeepsInv(run, nodeOf, nodes, i);
    hide Queued, Counts;
    var s := run[i];
    assert Ready(s, t);
  }

  /** A task waits only where its affinity says: pinned to the worker, near the preferred one, or anywhere. */
  lemma TasksWaitWherePlaced(run: seq<State>, nodeOf: seq<nat>, nodes: nat, i: nat, q: nat, t: TaskId)
    requires Run(run, nodeOf, nodes) && i < |run|
    ensures q < |run[i].core.stealable| && t in run[i].core.stealable[q] ==>
      t in run[i].core.vertices &&
      match run[i].core.vertices[t].affinity
      case Pinned(_) => false
      case Preferred(x) => x < |nodeOf| && nodeOf[x] == q
      case Anywhere => true
    ensures q < |run[i].core.unstealable| && t in run[i].core.unstealable[q] ==>
      t in run[i].core.vertices && run[i].core.vertices[t].affinity == Pinned(q)
  {
    RunKeepsInv(run, nodeOf, nodes, i);
    SameNodes(run, nodeOf, nodes, i);
    hide Queued, Counts, WellFormed;
  }

  lemma {:induction false} SameNodes(run: seq<State>, nodeOf: seq<nat>, nodes: nat, i: nat)
    requires Run(run, nodeOf, nodes) && i < |run|
    ensures run[i].core.nodeOf == nodeOf
  {
    hide Enabled, Apply;
    if i == 0 {
    } else {
      SameNodes(run, nodeOf, nodes, i - 1);
      assert Next(run[i - 1], run[i]);
      var step :| Enabled(run[i - 1], step) && run[i] == Apply(run[i - 1], step);
      NodesKept(run[i - 1], step);
    }
  }

  lemma NodesKept(s: State, step: Step)
    requires Enabled(s, step)
    ensures Apply(s, step).core.nodeOf == s.core.nodeOf
  {
    hide WellFormed, Takes, ValidAffinity;
    match step {
      case DropToken(t, w) => DecrementQueues(s.core, t, w, t);
      case DecrementSuccessor(p, w) => DecrementQueues(s.core, s.pending[p][0], w, p);
      case Take(w, t, after) => TakeLeavesVertices(s.core, after, w, t);
      case _ =>
    }
  }

  // ----- Progress

  /** Nobody is in the middle of anything and every task is committed. */
  ghost predicate Idle(s: State) {
    s.tokens == {} && s.taken == map[] && s.pending == map[]
  }

  /** The recorded dependencies among the live tasks are acyclic: `rank` rises along each of them. */
  ghost predicate Ranked(c: Core, rank: TaskId -> nat) {
    forall p: TaskId, t: TaskId :: p in c.vertices && t in c.vertices[p].successors ==> rank(p) < rank(t)
  }

  lemma {:induction false} LowestRank(ts: set<TaskId>, rank: TaskId -> nat) returns (low: TaskId)
    requires ts != {}
    ensures low in ts && forall t: TaskId :: t in ts ==> rank(low) <= rank(t)
  {
    low :| low in ts;
    var rest := ts - {low};
    if rest != {} {
      var other := LowestRank(rest, rank);
      assert forall t: TaskId :: t in ts ==> t == low || t in rest;
      if rank(other) < rank(low) {
        low := other;
      }
    } else {
      assert ts == {low};
    }
  }

  /** While tasks are unfinished, an idle scheduler with acyclic dependencies has something to take. */
  lemma Progress(run: seq<State>, nodeOf: seq<nat>, nodes: nat, i: nat, rank: TaskId -> nat)
    returns (t: TaskId)
    requires Run(run, nodeOf, nodes) && i < |run|
    requires Idle(run[i]) && Ranked(run[i].core, rank) && run[i].core.unfinished != 0
    ensures Queued(run[i].core, t) == 1
    ensures (exists q :: 0 <= q < |run[i].core.stealable| && t in run[i].core.stealable[q])
      || exists q :: 0 <= q < |run[i].core.unstealable| && t in run[i].core.unstealable[q]
  {
    RunKeepsInv(run, nodeOf, nodes, i);
    hide Inv, Idle, Ranked;
    t := IdleHasReady(run[i], rank);
  }

  lemma IdleHasReady(s: State, rank: TaskId -> nat) returns (t: TaskId)
    requires Inv(s) && Idle(s) && Ranked(s.core, rank) && s.core.unfinished != 0
    ensures Queued(s.core, t) == 1
    ensures (exists q :: 0 <= q < |s.core.stealable| && t in s.core.stealable[q])
      || exists q :: 0 <= q < |s.core.unstealable| && t in s.core.unstealable[q]
  {
    assert s.core.vertices.Keys != {} by {
      SomethingLive(s);
    }
    t := LowestRank(s.core.vertices.Keys, rank);
    assert Ready(s, t) by {
      NothingOwedToLowest(s, rank, t);
    }
    hide Counts, Ranked, WellFormed;
    CountZero(s.core.stealable, t);
    CountZero(s.core.unstealable, t);
  }

  lemma SomethingLive(s: State)
    requires Ids(s) && Tally(s) && Idle(s) && s.core.unfinished != 0
    ensures exists t: TaskId :: t in s.core.vertices
  {
    hide WellFormed;
    assert s.counted <= s.finished ==> s.counted == s.finished;
    if !(s.counted <= s.finished) {
      var t :| t in s.counted && t !in s.finished;
      assert t !in s.pending;
      assert t in s.core.vertices;
    }
  }

  lemma NothingOwedToLowest(s: State, rank: TaskId -> nat, t: TaskId)
    requires Ids(s) && Counts(s) && Idle(s) && Ranked(s.core, rank)
    requires t in s.core.vertices && forall u: TaskId :: u in s.core.vertices ==> rank(t) <= rank(u)
    ensures Ready(s, t)
  {
    hide WellFormed;
    forall p | 0 <= p < s.core.created ensures t !in Outgoing(s)[p] {
      assert p in s.core.vertices ==> s.core.vertices[p].successors == Outgoing(s)[p];
    }
    CountZero(Outgoing(s), t);
  }

  /** The dependencies among live tasks as a graph. */
  ghost function LiveGraph(c: Core): (g: D.Graph)
    ensures |g| == c.created
    ensures forall p: TaskId :: p < c.created ==> g[p] == if p in c.vertices then c.vertices[p].successors else []
  {
    seq(c.created, p requires 0 <= p => if p in c.vertices then c.vertices[p].successors else [])
  }

  lemma LiveGraphClosed(s: State)
    requires Ids(s) && Counts(s)
    ensures D.Closed(LiveGraph(s.core))
  {
    hide WellFormed;
    forall p: nat, t: nat | p < s.core.created && t in LiveGraph(s.core)[p] ensures t < s.core.created {
      assert t in Outgoing(s)[p];
      CountZero(Outgoing(s), t);
      assert t in s.core.vertices;
    }
  }

  lemma {:induction false} RankBound(rank: nat -> nat, n: nat) returns (bound: nat)
    ensures forall x: nat :: x < n ==> rank(x) <= bound
  {
    if n == 0 {
      bound := 0;
    } else {
      bound := RankBound(rank, n - 1);
      if bound < rank(n - 1) {
        bound := rank(n - 1);
      }
    }
  }

  /** The same without ranks: an idle scheduler whose live dependencies have no cycle has something to take
      while tasks are unfinished. */
  lemma ProgressWithoutCycles(run: seq<State>, nodeOf: seq<nat>, nodes: nat, i: nat) returns (t: TaskId)
    requires Run(run, nodeOf, nodes) && i < |run|
    requires Idle(run[i]) && !D.Cyclic(LiveGraph(run[i].core)) && run[i].core.unfinished != 0
    ensures Queued(run[i].core, t) == 1
  {
    RunKeepsInv(run, nodeOf, nodes, i);
    var s := run[i];
    var g := LiveGraph(s.core);
    assert D.Closed(g) by {
      LiveGraphClosed(s);
    }
    D.AcyclicIffRanked(g);
    var falling: nat -> nat :| D.Ranked(g, falling);
    var bound := RankBound(falling, s.core.created);
    var rank := (x: TaskId) => if falling(x) <= bound then bound - falling(x) else 0;
    assert Ranked(s.core, rank) by {
      RisingRank(s, falling, bound, rank);
    }
    t := Progress(run, nodeOf, nodes, i, rank);
  }

  lemma RisingRank(s: State, falling: nat -> nat, bound: nat, rank: TaskId -> nat)
    requires Ids(s) && D.Ranked(LiveGraph(s.core), falling) && D.Closed(LiveGraph(s.core))
    requires forall x: nat :: x < s.core.created ==> falling(x) <= bound && rank(x) == bound - falling(x)
    ensures Ranked(s.core, rank)
  {
    hide WellFormed;
    var g := LiveGraph(s.core);
    forall p: TaskId, t: TaskId | p in s.core.vertices && t in s.core.vertices[p].successors ensures rank(p) < rank(t) {
      assert p < s.core.created;
      assert t in g[p];
      assert D.Edge(g, p, t);
    }
  }

  /** When all work is done every task was queued exactly once. */
  lemma EveryTaskReleasedOnce(run: seq<State>, nodeOf: seq<nat>, nodes: nat, i: nat)
    requires Run(run, nodeOf, nodes) && i < |run|
    requires run[i].tokens == {} && run[i].core.unfinished == 0
    ensures forall t: TaskId :: t < run[i].core.created <==> t in run[i].completed
    ensures forall t: TaskId :: t < run[i].core.created ==> multiset(run[i].released)[t] == 1
  {
    RunKeepsInv(run, nodeOf, nodes, i);
    FinishedMeansNothingOutstanding(run, nodeOf, nodes, i);
    var s := run[i];
    hide WellFormed, Counts, InOnePlace, Recorded, Placed;
    forall t: TaskId | t < s.core.created ensures multiset(s.released)[t] == 1 {
      assert t in s.counted;
      assert t in s.released;
      OnceInDistinct(s.released, t);
    }
  }

  lemma {:induction false} OnceInDistinct(ts: seq<TaskId>, t: TaskId)
    requires NoRepeats(ts)
    ensures multiset(ts)[t] == if t in ts then 1 else 0
  {
    if |ts| == 0 {
    } else {
      var m := |ts| - 1;
      assert ts == ts[..m] + [ts[m]];
      OnceInDistinct(ts[..m], t);
    }
  }

  // ----- Why dependencies must come before the release

  /** A dependency added onto a task that is already queued puts it into a queue a second time as soon as
      the predecessor completes. */
  lemma LateDependencyQueuesTwice(c: Core, p: TaskId, t: TaskId, w: nat)
    requires WellFormed(c) && w < |c.nodeOf| && p in c.vertices && t in c.vertices && p != t
    requires c.vertices[t].count == 0 && Queued(c, t) == 1
    ensures WellFormed(AddDependency(c, p, t)) && WellFormed(Erase(AddDependency(c, p, t), p))
    ensures Queued(Decrement(Erase(AddDependency(c, p, t), p), t, w), t) == 2
  {
    hide Decrement, Count;
    AddDependencyKeepsShape(c, p, t);
    DecrementQueues(Erase(AddDependency(c, p, t), p), t, w, t);
  }
}
