/** The scheduler comes to an end: once no tasks and dependencies are added any more, every run of its threads
    finishes all tasks after a number of steps that is known from the beginning. */
module SchedulerProgress {
  import opened TaskGraph
  import opened SchedulerRuns

  /** A step that works off what is there: it adds no task, no dependency and no commit. */
  ghost predicate Working(step: Step) {
    step.DropToken? || step.Take? || step.EraseTask? || step.DecrementSuccessor? || step.Finish?
  }

  // ----- What is left to do

  /** The steps a task still takes: its commit's decrement, being taken, being erased, a decrement for each
      successor, and being finished. */
  ghost function StepsOf(s: State, t: TaskId): nat {
    Token(s, t) +
    if t in s.core.vertices then |s.core.vertices[t].successors| + if t in s.taken then 2 else 3
    else if t in s.pending then |s.pending[t]| + 1 else 0
  }

  ghost function StepsBelow(s: State, n: nat): nat {
    if n == 0 then 0 else StepsBelow(s, n - 1) + StepsOf(s, n - 1)
  }

  ghost function StepsLeft(s: State): nat {
    StepsBelow(s, s.core.created)
  }

  /** The task a working step is about. */
  ghost function Actor(step: Step): TaskId
    requires Working(step)
  {
    match step
    case DropToken(t, _) => t
    case Take(_, t, _) => t
    case EraseTask(t) => t
    case DecrementSuccessor(p, _) => p
    case Finish(p) => p
  }

  /** A working step is one step less for the task it is about, and changes nothing for the others. */
  lemma OneStepLess(s: State, step: Step, t: TaskId)
    requires Inv(s) && Enabled(s, step) && Working(step)
    ensures StepsOf(s, t) == StepsOf(Apply(s, step), t) + if t == Actor(step) then 1 else 0
  {
    hide WellFormed, Takes, Queued, Counts, Recorded, Tally, Placed;
    match step {
      case DropToken(x, w) =>
        DecrementQueues(s.core, x, w, t);
      case Take(w, x, after) =>
        TakeLeavesVertices(s.core, after, w, x);
        NotYetTaken(s, step);
      case EraseTask(x) =>
        TakenIsReady(s, step) by { assert Counts(s); }
      case DecrementSuccessor(p, w) =>
        DecrementQueues(s.core, s.pending[p][0], w, t);
      case Finish(p) =>
    }
  }

  lemma NotYetTaken(s: State, step: Step)
    requires Inv(s) && Enabled(s, step) && step.Take?
    ensures step.t in s.core.vertices && step.t !in s.taken
  {
    hide WellFormed, Queued, Counts, Recorded, Tally, Placed, Takes;
    TakesQueued(s, step, step.t);
    assert Ready(s, step.t);
  }

  lemma {:induction false} SumLess(s: State, s': State, a: TaskId, n: nat)
    requires forall t: TaskId :: StepsOf(s, t) == StepsOf(s', t) + if t == a then 1 else 0
    ensures StepsBelow(s, n) == StepsBelow(s', n) + if a < n then 1 else 0
  {
    hide StepsOf;
    if n == 0 {
    } else {
      SumLess(s, s', a, n - 1);
    }
  }

  /** Every working step is one step less in all. */
  lemma StepsCounted(s: State, step: Step)
    requires Inv(s) && Enabled(s, step) && Working(step)
    ensures StepsLeft(s) == StepsLeft(Apply(s, step)) + 1
  {
    hide Inv, Enabled, Apply, StepsOf;
    var s' := Apply(s, step);
    forall t: TaskId ensures StepsOf(s, t) == StepsOf(s', t) + if t == Actor(step) then 1 else 0 {
      OneStepLess(s, step, t);
    }
    SumLess(s, s', Actor(step), s.core.created);
    LiveAfter(s, step);
    ActorBelow(s, step);
  }

  lemma ActorBelow(s: State, step: Step)
    requires Inv(s) && Enabled(s, step) && Working(step)
    ensures Actor(step) < s.core.created
  {
    hide WellFormed, Takes, Queued, Counts, Recorded, Tally, Placed;
    if step.Take? {
      NotYetTaken(s, step);
    }
  }

  // ----- Somebody can always go on

  /** Every task has been committed, or its commit is under way. */
  ghost predicate AllCommitted(s: State) {
    s.tokens <= s.counted
  }

  lemma StillWorking(s: State, step: Step, rank: TaskId -> nat)
    requires Inv(s) && Enabled(s, step) && Working(step) && AllCommitted(s) && Ranked(s.core, rank)
    ensures AllCommitted(Apply(s, step)) && Ranked(Apply(s, step).core, rank)
  {
    hide WellFormed, Takes, Counts, InOnePlace, ReleasedOnce, Recorded, Tally, Placed, Apply;
    var s' := Apply(s, step);
    TokensAfter(s, step);
    CountedStays(s, step);
    forall p: TaskId, t: TaskId | p in s'.core.vertices && t in s'.core.vertices[p].successors ensures rank(p) < rank(t) {
      SuccessorsAfter(s, step, p);
    }
  }

  lemma CountedStays(s: State, step: Step)
    requires Enabled(s, step) && Working(step)
    ensures Apply(s, step).counted == s.counted
  {
    hide WellFormed, Takes, Decrement;
  }

  /** While a task is unfinished some thread can take a step, provided the dependencies have no cycle. */
  lemma SomeoneCanWork(s: State, rank: TaskId -> nat) returns (step: Step)
    requires Inv(s) && AllCommitted(s) && Ranked(s.core, rank) && s.core.unfinished != 0
    ensures Working(step) && Enabled(s, step)
  {
    hide Counts, InOnePlace, ReleasedOnce, Recorded, Tally, Placed, Ranked, Takes, Safe;
    assert WellFormed(s.core) && |s.core.nodeOf| > 0;
    if t: TaskId :| t in s.tokens {
      step := DropToken(t, 0);
    } else if p: TaskId :| p in s.pending {
      step := if s.pending[p] == [] then Finish(p) else DecrementSuccessor(p, 0);
    } else if t: TaskId :| t in s.taken {
      step := EraseTask(t);
    } else {
      assert Idle(s);
      step := SomethingToTake(s, rank);
    }
    hide CanStep;
    StepIsSafe(s, step);
  }

  /** An idle scheduler has a nonempty queue. */
  lemma SomethingToTake(s: State, rank: TaskId -> nat) returns (step: Step)
    requires Inv(s) && Idle(s) && Ranked(s.core, rank) && s.core.unfinished != 0
    ensures step.Take? && CanStep(s, step)
  {
    var t := IdleHasReady(s, rank);
    var c := s.core;
    assert WellFormed(c);
    hide Counts, InOnePlace, ReleasedOnce, Recorded, Tally, Placed, Ranked, Ids;
    if q :| 0 <= q < |c.stealable| && t in c.stealable[q] {
      var after := c.(stealable := c.stealable[q := c.stealable[q][1..]]);
      assert RemovedFrom(after.stealable, c.stealable, q, c.stealable[q][0]);
      step := Take(0, c.stealable[q][0], after);
    } else {
      var q :| 0 <= q < |c.unstealable| && t in c.unstealable[q];
      var after := c.(unstealable := c.unstealable[q := c.unstealable[q][1..]]);
      assert RemovedFrom(after.unstealable, c.unstealable, q, c.unstealable[q][0]);
      step := Take(q, c.unstealable[q][0], after);
    }
  }

  // ----- Runs to the end

  /** A run of working steps. */
  ghost predicate WorkRun(run: seq<State>, s: State) {
    && |run| > 0 && run[0] == s
    && forall i :: 0 <= i < |run| - 1 ==> WorkNext(run[i], run[i + 1])
  }

  ghost predicate WorkNext(s: State, s': State) {
    exists step :: Working(step) && Enabled(s, step) && s' == Apply(s, step)
  }

  lemma {:induction false} WorkCounted(run: seq<State>, s: State, rank: TaskId -> nat, i: nat)
    requires WorkRun(run, s) && Inv(s) && AllCommitted(s) && Ranked(s.core, rank) && i < |run|
    ensures Inv(run[i]) && AllCommitted(run[i]) && Ranked(run[i].core, rank)
    ensures StepsLeft(run[i]) + i == StepsLeft(s)
  {
    hide Inv, Enabled, Apply, AllCommitted, Ranked, StepsLeft;
    if i == 0 {
    } else {
      WorkCounted(run, s, rank, i - 1);
      assert WorkNext(run[i - 1], run[i]);
      var step :| Working(step) && Enabled(run[i - 1], step) && run[i] == Apply(run[i - 1], step);
      InvKept(run[i - 1], step);
      StepsCounted(run[i - 1], step);
      StillWorking(run[i - 1], step, rank);
    }
  }

  ghost predicate AllFinished(s: State) {
    forall t: TaskId :: t < s.core.created ==> t in s.finished
  }

  /** Nothing is left to do exactly when every task is finished. */
  lemma NothingLeft(s: State)
    requires Inv(s) && AllCommitted(s)
    ensures StepsLeft(s) == 0 <==> AllFinished(s)
    ensures s.core.unfinished == 0 ==> StepsLeft(s) == 0
  {
    hide WellFormed, Counts, InOnePlace, ReleasedOnce, Recorded, Placed;
    NoneBelow(s, s.core.created);
    forall t: TaskId | t < s.core.created ensures StepsOf(s, t) == 0 <==> t in s.finished {}
    if s.core.unfinished == 0 {
      AllCounted(s);
      forall t: TaskId | t < s.core.created ensures t in s.finished {}
    }
  }

  lemma AllCounted(s: State)
    requires Tally(s) && s.core.unfinished == 0
    ensures s.counted == s.finished
  {
    assert s.counted == (s.counted - s.finished) + s.finished;
    assert |s.counted - s.finished| == 0;
  }

  lemma {:induction false} NoneBelow(s: State, n: nat)
    ensures StepsBelow(s, n) == 0 <==> forall t: TaskId :: t < n ==> StepsOf(s, t) == 0
  {
    hide StepsOf;
    if n == 0 {
    } else {
      NoneBelow(s, n - 1);
    }
  }

  /** Once nothing is added any more and the dependencies have no cycle, a run is never longer than the steps that
      were left at its beginning. Until it has that length somebody can go on, and when it has, every task is
      finished: whatever the threads do, all tasks are run. */
  lemma AllWorkEnds(run: seq<State>, s: State, rank: TaskId -> nat)
    requires WorkRun(run, s) && Inv(s) && AllCommitted(s) && Ranked(s.core, rank)
    ensures |run| - 1 <= StepsLeft(s)
    ensures |run| - 1 < StepsLeft(s) ==> exists step :: Working(step) && Enabled(run[|run| - 1], step)
    ensures |run| - 1 == StepsLeft(s) <==> AllFinished(run[|run| - 1])
    ensures |run| - 1 == StepsLeft(s) ==> run[|run| - 1].core.unfinished == 0
  {
    hide Inv, AllCommitted, Ranked, StepsLeft, Enabled, AllFinished;
    var last := run[|run| - 1];
    WorkCounted(run, s, rank, |run| - 1);
    NothingLeft(last);
    if last.core.unfinished != 0 {
      var step := SomeoneCanWork(last, rank);
      StepsCounted(last, step);
    }
  }
}
