/** A process task on top of the scheduler: three fixed physical tasks, and commands added while the graph
    is already running. */
module ProcessRuns {
  import opened Options
  import opened TaskGraph
  import opened ProcessLife
  import opened Throttle
  import SR = SchedulerRuns

  // ----- States

  /** A command runs the processor, or finalises one worker. */
  datatype Kind = RunKind | FinalizerKind(worker: nat)

  /** How far the thread is that adds a command: the dependency on the entry, the dependency of the
      barrier (or, for a finaliser, of the terminal), and the commit come one after the other. */
  datatype Stage = NeedEntry | NeedTarget | NeedCommit

  /** A command being added, and the task in whose name that happens. */
  datatype Spawn = Spawn(sponsor: TaskId, stage: Stage)

  /** `upstream` are the terminals of the producers, `executed` the own tasks whose code has run, `notified`
      the commands that have reported to the limit, `next` the worker the barrier looks at next. */
  datatype State = State(
    sched: SR.State, entry: TaskId, barrier: TaskId, terminal: TaskId, upstream: set<TaskId>,
    commands: map<TaskId, Kind>, spawning: map<TaskId, Spawn>, executed: set<TaskId>, notified: set<TaskId>,
    next: nat, life: Life, limit: Limit)

  ghost predicate Fixed(p: State, t: TaskId) {
    t == p.entry || t == p.barrier || t == p.terminal
  }

  ghost predicate Own(p: State, t: TaskId) {
    Fixed(p, t) || t in p.commands
  }

  ghost function TargetOf(p: State, t: TaskId): TaskId
    requires t in p.commands
  {
    if p.commands[t].RunKind? then p.barrier else p.terminal
  }

  // ----- Steps

  datatype Step =
    | Other(step: SR.Step)
    | GlobalInitialize
    | SpawnRun(sponsor: TaskId, a: Affinity)
    | LinkEntry(t: TaskId)
    | LinkTarget(t: TaskId)
    | Commit(t: TaskId)
    | RunCommand(t: TaskId)
    | FinalizeCommand(t: TaskId)
    | Notify(t: TaskId)
    | NextFinalizer
    | BarrierDone
    | GlobalFinalize

  /** What the rest of the system does with tasks of this process task: it adds no dependencies onto them,
      does not commit its commands, completes its tasks after they have run, and completes nobody in whose
      name a command is being added. */
  ghost predicate Polite(p: State, step: SR.Step) {
    match step
    case Depend(_, t) => !Own(p, t)
    case CountCommit(t) => t !in p.commands
    case EraseTask(t) =>
      && (Fixed(p, t) ==> t in p.executed) && (t in p.commands ==> t in p.notified)
      && forall u: TaskId :: u in p.spawning ==> p.spawning[u].sponsor != t
    case _ => true
  }

  ghost predicate Running(p: State, t: TaskId) {
    t in p.sched.taken && t !in p.executed
  }

  /** When the code of the process task takes a step. Nothing here demands that the scheduler is ready
      for it. */
  ghost predicate CanStep(p: State, step: Step) {
    match step
    case Other(st) => SR.CanStep(p.sched, st) && Polite(p, st)
    case GlobalInitialize => Running(p, p.entry)
    case SpawnRun(sponsor, a) =>
      && ValidAffinity(a, |p.life.local|)
      && ((sponsor == p.entry && sponsor in p.sched.taken) || (sponsor in p.upstream && sponsor in p.sched.core.vertices))
    case LinkEntry(t) => t in p.spawning && p.spawning[t].stage == NeedEntry
    case LinkTarget(t) => t in p.spawning && p.spawning[t].stage == NeedTarget && t in p.commands
    case Commit(t) => t in p.spawning && p.spawning[t].stage == NeedCommit
    case RunCommand(t) =>
      && t in p.commands && p.commands[t].RunKind? && Running(p, t) && p.sched.taken[t] < |p.life.local|
    case FinalizeCommand(t) =>
      && t in p.commands && p.commands[t].FinalizerKind? && Running(p, t) && p.sched.taken[t] < |p.life.local|
    case Notify(t) => t in p.commands && t in p.executed && t !in p.notified
    case NextFinalizer => Running(p, p.barrier) && p.next < |p.life.local|
    case BarrierDone =>
      && Running(p, p.barrier) && p.next == |p.life.local|
      && forall u: TaskId :: u in p.spawning ==> p.spawning[u].sponsor != p.barrier
    case GlobalFinalize => Running(p, p.terminal)
  }

  /** The scheduler operation a step calls, if any. */
  ghost function Calls(p: State, step: Step): Option<SR.Step>
    requires CanStep(p, step)
  {
    match step
    case Other(st) => Some(st)
    case SpawnRun(_, a) => Some(SR.Create(a))
    case LinkEntry(t) => Some(SR.Depend(p.entry, t))
    case LinkTarget(t) => Some(SR.Depend(t, TargetOf(p, t)))
    case Commit(t) => if p.limit.remaining == 0 then None else Some(SR.CountCommit(t))
    case Notify(_) => if |p.limit.parked| == 0 then None else Some(SR.CountCommit(p.limit.parked[0]))
    case NextFinalizer => if p.life.local[p.next] then Some(SR.Create(Pinned(p.next))) else None
    case _ => None
  }

  /** The scheduler's rules are respected: a task is committed once, and a dependency is only added onto a
      task that has not been released. */
  ghost predicate Safe(p: State, step: Step)
    requires CanStep(p, step)
  {
    Calls(p, step).Some? ==> SR.Enabled(p.sched, Calls(p, step).value)
  }

  ghost function SchedAfter(p: State, step: Step): SR.State
    requires CanStep(p, step) && Safe(p, step)
  {
    if Calls(p, step).Some? then SR.Apply(p.sched, Calls(p, step).value) else p.sched
  }

  ghost function LifeAfter(p: State, step: Step): Life
    requires CanStep(p, step)
  {
    match step
    case GlobalInitialize => GlobalInitialized(p.life)
    case RunCommand(t) => RunOn(p.life, p.sched.taken[t], t)
    case FinalizeCommand(t) => LocalFinalized(p.life, p.sched.taken[t])
    case GlobalFinalize => GlobalFinalized(p.life)
    case _ => p.life
  }

  ghost function LimitAfter(p: State, step: Step): Limit {
    match step
    case Commit(t) => Request(p.limit, t)
    case Notify(_) => Notified(p.limit)
    case _ => p.limit
  }

  ghost function ExecutedAfter(p: State, step: Step): set<TaskId> {
    match step
    case GlobalInitialize => p.executed + {p.entry}
    case RunCommand(t) => p.executed + {t}
    case FinalizeCommand(t) => p.executed + {t}
    case BarrierDone => p.executed + {p.barrier}
    case GlobalFinalize => p.executed + {p.terminal}
    case _ => p.executed
  }

  ghost function CommandsAfter(p: State, step: Step): map<TaskId, Kind>
    requires CanStep(p, step)
  {
    match step
    case SpawnRun(_, _) => p.commands[p.sched.core.created := RunKind]
    case NextFinalizer =>
      if p.life.local[p.next] then p.commands[p.sched.core.created := FinalizerKind(p.next)] else p.commands
    case _ => p.commands
  }

  ghost function SpawningAfter(p: State, step: Step): map<TaskId, Spawn>
    requires CanStep(p, step)
  {
    match step
    case SpawnRun(sponsor, _) => p.spawning[p.sched.core.created := Spawn(sponsor, NeedEntry)]
    case LinkEntry(t) => p.spawning[t := p.spawning[t].(stage := NeedTarget)]
    case LinkTarget(t) => p.spawning[t := p.spawning[t].(stage := NeedCommit)]
    case Commit(t) => p.spawning - {t}
    case NextFinalizer =>
      if p.life.local[p.next] then p.spawning[p.sched.core.created := Spawn(p.barrier, NeedTarget)] else p.spawning
    case _ => p.spawning
  }

  ghost function Apply(p: State, step: Step): State
    requires CanStep(p, step) && Safe(p, step)
  {
    State(SchedAfter(p, step), p.entry, p.barrier, p.terminal, p.upstream, CommandsAfter(p, step), SpawningAfter(p, step),
      ExecutedAfter(p, step), if step.Notify? then p.notified + {step.t} else p.notified,
      if step.NextFinalizer? then p.next + 1 else p.next, LifeAfter(p, step), LimitAfter(p, step))
  }

  // ----- The invariant

  /** The fixed tasks and their dependencies. */
  ghost predicate Static(p: State) {
    && SR.Inv(p.sched)
    && p.entry != p.barrier && p.barrier != p.terminal && p.entry != p.terminal
    && p.terminal < p.sched.core.created && p.entry < p.sched.core.created && p.barrier < p.sched.core.created
    && (forall t: TaskId :: t in p.commands ==> t < p.sched.core.created && !Fixed(p, t))
    && (forall u: TaskId :: u in p.upstream ==> !Own(p, u) && (u, p.barrier) in p.sched.deps)
    && (p.entry, p.barrier) in p.sched.deps && (p.barrier, p.terminal) in p.sched.deps
    && |p.life.local| == |p.sched.core.nodeOf|
  }

  /** Commands being added are neither committed nor running, and their sponsors are live. */
  ghost predicate Spawns(p: State) {
    && (forall t: TaskId :: t in p.spawning ==> t in p.commands && t in p.sched.tokens && t !in p.sched.counted)
    && (forall t: TaskId :: t in p.spawning && t in p.commands && p.commands[t].RunKind? ==>
          && (p.spawning[t].sponsor == p.entry || p.spawning[t].sponsor in p.upstream)
          && p.spawning[t].sponsor in p.sched.core.vertices)
    && (forall t: TaskId :: t in p.spawning && t in p.commands && p.commands[t].FinalizerKind? ==>
          p.spawning[t].sponsor == p.barrier && p.spawning[t].stage != NeedEntry && Running(p, p.barrier))
  }

  ghost predicate PastEntry(p: State, t: TaskId) {
    t in p.commands && p.commands[t].RunKind? && (t in p.spawning ==> p.spawning[t].stage != NeedEntry)
  }

  ghost predicate PastTarget(p: State, t: TaskId) {
    t in p.commands && (t in p.spawning ==> p.spawning[t].stage == NeedCommit)
  }

  ghost predicate Links(p: State) {
    && (forall t: TaskId :: PastEntry(p, t) ==> p.entry in p.sched.completed || (p.entry, t) in p.sched.deps)
    && (forall t: TaskId :: PastTarget(p, t) ==> (t, TargetOf(p, t)) in p.sched.deps)
  }

  /** The commands are those being added, those parked and those committed. */
  ghost predicate Limited(p: State) {
    && Conserved(p.limit) && SR.NoRepeats(p.limit.requests)
    && (forall t: TaskId :: t in p.limit.requests <==> t in p.commands && t !in p.spawning)
    && (forall t: TaskId :: t in p.limit.commits <==> t in p.commands && t in p.sched.counted)
    && |p.notified| == p.limit.notified
  }

  /** Completed tasks have run, and tasks that have run had been released. */
  ghost predicate Ran(p: State) {
    && (forall t: TaskId :: Fixed(p, t) && t in p.sched.completed ==> t in p.executed)
    && (forall t: TaskId :: t in p.commands && t in p.sched.completed ==> t in p.notified)
    && (forall t: TaskId :: t in p.executed ==> t in p.sched.released && Own(p, t))
    && (forall t: TaskId :: t in p.notified ==> t in p.executed && t in p.commands)
  }

  ghost predicate Pending(p: State, t: TaskId, w: nat) {
    t in p.commands && p.commands[t] == FinalizerKind(w) && t !in p.executed
  }

  /** A worker is initialised exactly while its finaliser is pending. */
  ghost predicate Covered(p: State, w: nat) {
    && w < |p.life.local|
    && (forall t: TaskId :: Pending(p, t, w) ==> p.life.local[w])
    && (p.life.local[w] ==> exists t: TaskId :: Pending(p, t, w))
  }

  /** A finaliser, pinned to its worker, for every worker the barrier has found initialised. */
  ghost predicate Finalizers(p: State) {
    && p.next <= |p.life.local| && (p.next > 0 ==> p.barrier in p.sched.released)
    && (p.barrier in p.executed ==> p.next == |p.life.local|)
    && (forall t: TaskId :: t in p.commands && p.commands[t].FinalizerKind? ==>
          && p.commands[t].worker < p.next
          && (t in p.sched.core.vertices ==> p.sched.core.vertices[t].affinity == Pinned(p.commands[t].worker)))
    && (forall t: TaskId, u: TaskId ::
          t in p.commands && u in p.commands && p.commands[t].FinalizerKind? && p.commands[t] == p.commands[u] ==> t == u)
    && (forall w: nat :: w < p.next ==> Covered(p, w))
  }

  ghost predicate Logged(p: State) {
    Agrees(p.life, p.next, p.executed, p.entry, p.terminal)
  }

  /** The processor has been called for exactly the run commands whose code has run, once each, on the worker
      that has the command. */
  ghost predicate Called(p: State) {
    && (forall t: TaskId :: t in p.commands && p.commands[t].RunKind? && t in p.executed ==>
          exists w: nat :: RunCall(w, t) in p.life.log)
    && (forall w: nat, t: TaskId :: RunCall(w, t) in p.life.log ==>
          && t in p.executed && t in p.commands && p.commands[t].RunKind?
          && ((t in p.sched.taken && p.sched.taken[t] == w) || t in p.sched.completed))
    && (forall w: nat, v: nat, t: TaskId :: RunCall(w, t) in p.life.log && RunCall(v, t) in p.life.log ==> w == v)
  }

  ghost predicate Inv(p: State) {
    Static(p) && Spawns(p) && Links(p) && Limited(p) && Ran(p) && Finalizers(p) && Logged(p) && Called(p)
  }

  // ----- What the scheduler guarantees

  lemma SchedFacts(s: SR.State, step: SR.Step)
    requires SR.Inv(s) && SR.Enabled(s, step)
    ensures SR.Inv(SR.Apply(s, step))
    ensures SR.Apply(s, step).core.created == s.core.created + if step.Create? then 1 else 0
    ensures SR.Apply(s, step).core.nodeOf == s.core.nodeOf
    ensures forall t: TaskId :: t in s.released ==> t in SR.Apply(s, step).released
  {
    SR.InvKept(s, step);
    SR.LiveAfter(s, step);
    SR.ReleasedAfter(s, step);
    hide SR.Inv, WellFormed, SR.ReleasedBy, Takes, Decrement;
    match step {
      case DropToken(t, w) => DecrementQueues(s.core, t, w, t);
      case DecrementSuccessor(x, w) => DecrementQueues(s.core, s.pending[x][0], w, x);
      case Take(w, t, after) => SR.TakeLeavesVertices(s.core, after, w, t);
      case _ =>
    }
  }

  lemma RecordFacts(s: SR.State, step: SR.Step)
    requires SR.Enabled(s, step)
    ensures SR.Apply(s, step).completed == s.completed + if step.EraseTask? then {step.t} else {}
    ensures SR.Apply(s, step).counted == s.counted + if step.CountCommit? then {step.t} else {}
    ensures SR.Apply(s, step).deps ==
      s.deps + if step.Depend? && step.p in s.core.vertices then {(step.p, step.s)} else {}
    ensures step.EraseTask? ==> step.t in s.taken && step.t in s.core.vertices
  {
    hide WellFormed, Takes, Decrement, AddDependency;
  }

  lemma IdFacts(s: SR.State, x: TaskId, t: TaskId)
    requires SR.Inv(s)
    ensures (x, t) in s.deps ==> x < s.core.created && t < s.core.created
    ensures x in s.tokens || x in s.counted || x in s.released || x in s.completed || x in s.core.vertices ==>
      x < s.core.created
  {
    hide Queued, WellFormed, SR.Placed, SR.Tally, SR.Counts, SR.InOnePlace;
  }

  lemma VertexFacts(s: SR.State, step: SR.Step, t: TaskId)
    requires SR.Inv(s) && SR.Enabled(s, step)
    ensures t in SR.Apply(s, step).core.vertices <==>
      (t in s.core.vertices || (step.Create? && t == s.core.created)) && !(step.EraseTask? && t == step.t)
    ensures t in SR.Apply(s, step).tokens <==>
      (t in s.tokens || (step.Create? && t == s.core.created)) && !(step.DropToken? && t == step.t)
    ensures step.DropToken? ==> step.t in s.counted
    ensures t in SR.Apply(s, step).taken <==>
      (t in s.taken || (step.Take? && step.t == t)) && !(step.EraseTask? && step.t == t)
    ensures t in s.core.vertices && t in SR.Apply(s, step).core.vertices ==>
      SR.Apply(s, step).core.vertices[t].affinity == s.core.vertices[t].affinity
    ensures step.Create? ==> SR.Apply(s, step).core.vertices[s.core.created].affinity == step.a
  {
    SR.LiveAfter(s, step);
    SR.TokensAfter(s, step);
    SR.QueuedAfter(s, step, t);
    assert t in SR.Apply(s, step).core.vertices <==> t in SR.Apply(s, step).core.vertices.Keys;
    if t in SR.Apply(s, step).core.vertices {
      SR.VertexAfter(s, step, t);
    }
  }

  /** A released task has been committed and all its recorded predecessors have completed. */
  lemma ReleasedFacts(s: SR.State, t: TaskId)
    requires SR.Inv(s) && t in s.released
    ensures t < s.core.created && t in s.counted && t !in s.tokens
    ensures forall x: TaskId :: (x, t) in s.deps ==> x in s.completed
  {
    hide Queued, WellFormed, SR.Placed, SR.Tally, SR.Outgoing;
    assert Count(SR.Outgoing(s), t) == 0;
    forall x: TaskId | (x, t) in s.deps ensures x in s.completed {
      SR.NotOwedAnyMore(s, x, t);
    }
  }

  lemma UnreleasedFacts(s: SR.State, t: TaskId)
    requires SR.Inv(s) && t < s.core.created && t !in s.released
    ensures t in s.core.vertices && s.core.vertices[t].count > 0
  {
    hide Queued, WellFormed, SR.Placed, SR.Tally, SR.Counts, SR.Recorded, SR.InOnePlace;
    assert !SR.Ready(s, t);
  }

  lemma LiveFacts(s: SR.State, t: TaskId)
    requires SR.Inv(s)
    ensures t in s.core.vertices <==> t < s.core.created && t !in s.completed
    ensures t in s.tokens ==> t in s.core.vertices && s.core.vertices[t].count > 0 && t !in s.released
    ensures t < s.core.created && t !in s.counted ==> t in s.tokens
    ensures t in s.taken ==> t in s.released && t in s.core.vertices
    ensures t in s.completed ==> t in s.released
    ensures WellFormed(s.core)
  {
    hide Queued, WellFormed, SR.Placed, SR.Tally, SR.Recorded;
    if t in s.taken {
      assert SR.Ready(s, t);
    }
  }

  // ----- Dependencies are always added in time

  /** While a command is being added its target still waits for the sponsor. */
  lemma TargetUnreleased(p: State, t: TaskId)
    requires Static(p) && Spawns(p) && t in p.spawning && t in p.commands
    ensures TargetOf(p, t) < p.sched.core.created && TargetOf(p, t) !in p.sched.released
  {
    var target, sponsor := TargetOf(p, t), p.spawning[t].sponsor;
    hide SR.Inv;
    LiveFacts(p.sched, sponsor);
    LiveFacts(p.sched, p.barrier);
    assert (sponsor, target) in p.sched.deps;
    if target in p.sched.released {
      ReleasedFacts(p.sched, target);
    }
  }

  /** Whatever the process task does next, the scheduler's rules are respected. */
  lemma StepIsSafe(p: State, step: Step)
    requires Inv(p) && CanStep(p, step)
    ensures Safe(p, step)
  {
    hide SR.Inv, Links, Ran, Finalizers, Logged, WellFormed;
    match step {
      case Other(st) => SR.StepIsSafe(p.sched, st);
      case SpawnRun(_, a) => LiveFacts(p.sched, p.entry);
      case LinkEntry(t) =>
        LiveFacts(p.sched, t);
      case LinkTarget(t) =>
        LiveFacts(p.sched, t);
        TargetUnreleased(p, t);
        UnreleasedFacts(p.sched, TargetOf(p, t));
      case Commit(t) => LiveFacts(p.sched, t);
      case Notify(t) =>
        if |p.limit.parked| > 0 {
          ParkedIsUncommitted(p.limit);
          LiveFacts(p.sched, p.limit.parked[0]);
        }
      case NextFinalizer => LiveFacts(p.sched, p.entry);
      case _ =>
    }
  }

  lemma ParkedIsUncommitted(l: Limit)
    requires Conserved(l) && SR.NoRepeats(l.requests) && |l.parked| > 0
    ensures l.parked[0] in l.requests && l.parked[0] !in l.commits
  {
    assert l.requests[|l.commits|] == l.parked[0];
    assert forall i :: 0 <= i < |l.commits| ==> l.requests[i] == l.commits[i];
  }

  // ----- What every step keeps

  /** The scheduler's side of a step. */
  lemma SchedView(p: State, step: Step)
    requires SR.Inv(p.sched) && CanStep(p, step) && Safe(p, step)
    ensures SR.Inv(SchedAfter(p, step))
    ensures p.sched.deps <= SchedAfter(p, step).deps && p.sched.completed <= SchedAfter(p, step).completed
    ensures p.sched.core.created <= SchedAfter(p, step).core.created
    ensures step.SpawnRun? || (step.NextFinalizer? && p.life.local[p.next]) ==>
      SchedAfter(p, step).core.created == p.sched.core.created + 1
    ensures SchedAfter(p, step).core.nodeOf == p.sched.core.nodeOf
    ensures forall t: TaskId :: t in p.sched.released ==> t in SchedAfter(p, step).released
  {
    hide SR.Inv, SR.Apply, SR.Enabled;
    if Calls(p, step).Some? {
      SchedFacts(p.sched, Calls(p, step).value);
      RecordFacts(p.sched, Calls(p, step).value);
    }
  }

  lemma StaticKept(p: State, step: Step)
    requires Static(p) && CanStep(p, step) && Safe(p, step)
    ensures Static(Apply(p, step))
  {
    hide SR.Inv, SchedAfter, LimitAfter, SpawningAfter, ExecutedAfter;
    SchedView(p, step);
    forall u: TaskId | u in p.upstream ensures u < p.sched.core.created {
      IdFacts(p.sched, u, p.barrier);
    }
    hide SR.Enabled, Polite;
  }

  lemma SpawnsKept(p: State, step: Step)
    requires Static(p) && Spawns(p) && Limited(p) && CanStep(p, step) && Safe(p, step)
    ensures Spawns(Apply(p, step))
  {
    hide SR.Inv, SR.Apply, SR.Enabled, LimitAfter, LifeAfter, Static, Limited;
    var p' := Apply(p, step);
    forall t: TaskId | t in p'.spawning
      ensures t in p'.commands && t in p'.sched.tokens && t !in p'.sched.counted
    {
      SpawningUncommitted(p, step, t);
    }
    forall t: TaskId | t in p'.spawning ensures SponsorFine(p', t) {
      SponsorKept(p, step, t);
    }
  }

  ghost predicate SponsorFine(p: State, t: TaskId)
    requires t in p.spawning
  {
    && (t in p.commands && p.commands[t].RunKind? ==>
          && (p.spawning[t].sponsor == p.entry || p.spawning[t].sponsor in p.upstream)
          && p.spawning[t].sponsor in p.sched.core.vertices)
    && (t in p.commands && p.commands[t].FinalizerKind? ==>
          p.spawning[t].sponsor == p.barrier && p.spawning[t].stage != NeedEntry && Running(p, p.barrier))
  }

  ghost predicate AddsCommand(p: State, step: Step) {
    step.SpawnRun? || (step.NextFinalizer? && p.next < |p.life.local| && p.life.local[p.next])
  }

  /** The commands being added after a step: those before it, and a new one. */
  lemma SpawningFacts(p: State, step: Step, t: TaskId)
    requires CanStep(p, step) && t in SpawningAfter(p, step)
    ensures t in p.spawning || (AddsCommand(p, step) && t == p.sched.core.created)
    ensures AddsCommand(p, step) ==> Calls(p, step).Some? && Calls(p, step).value.Create?
    ensures t in p.spawning && !(AddsCommand(p, step) && t == p.sched.core.created) ==>
      && SpawningAfter(p, step)[t].sponsor == p.spawning[t].sponsor
      && (p.spawning[t].stage != NeedEntry ==> SpawningAfter(p, step)[t].stage != NeedEntry)
    ensures t in p.commands && t in CommandsAfter(p, step) && !(AddsCommand(p, step) && t == p.sched.core.created) ==>
      CommandsAfter(p, step)[t] == p.commands[t]
    ensures p.commands.Keys <= CommandsAfter(p, step).Keys
  {
    hide SR.Enabled, Polite;
  }

  /** The task a step commits is not one being added. */
  lemma NotCommittedYet(p: State, step: Step, t: TaskId)
    requires Spawns(p) && Limited(p) && CanStep(p, step) && t in SpawningAfter(p, step) && t in p.spawning
    ensures Calls(p, step) != Some(SR.CountCommit(t))
  {
    hide SR.Enabled;
    if step.Notify? && |p.limit.parked| > 0 {
      ParkedIsUncommitted(p.limit);
    }
  }

  lemma SpawningUncommitted(p: State, step: Step, t: TaskId)
    requires Static(p) && Spawns(p) && Limited(p) && CanStep(p, step) && Safe(p, step)
    requires t in SpawningAfter(p, step)
    ensures t in CommandsAfter(p, step) && t in SchedAfter(p, step).tokens && t !in SchedAfter(p, step).counted
  {
    hide SR.Inv, SR.Apply, SR.Enabled, Limited, Polite, SpawningAfter;
    SpawningFacts(p, step, t);
    IdFacts(p.sched, p.sched.core.created, 0);
    if t in p.spawning {
      NotCommittedYet(p, step, t);
    }
    if Calls(p, step).Some? {
      RecordFacts(p.sched, Calls(p, step).value);
      VertexFacts(p.sched, Calls(p, step).value, t);
    }
  }

  lemma {:induction false} NewSponsor(p: State, step: Step)
    requires Static(p) && CanStep(p, step) && AddsCommand(p, step)
    ensures p.sched.core.created in SpawningAfter(p, step)
    ensures var added := SpawningAfter(p, step)[p.sched.core.created];
      && (step.SpawnRun? ==> added.sponsor == step.sponsor && added.sponsor in p.sched.core.vertices)
      && (step.NextFinalizer? ==> added == Spawn(p.barrier, NeedTarget))
  {
    hide SR.Inv, SR.Enabled, Polite;
    LiveFacts(p.sched, p.entry);
  }

  lemma SponsorKept(p: State, step: Step, t: TaskId)
    requires Static(p) && Spawns(p) && CanStep(p, step) && Safe(p, step)
    requires t in SpawningAfter(p, step)
    ensures SponsorFine(Apply(p, step), t)
  {
    hide SR.Inv, SR.Apply, SR.Enabled, SR.CanStep, LimitAfter, LifeAfter, SpawningAfter, WellFormed;
    SpawningFacts(p, step, t);
    if AddsCommand(p, step) {
      NewSponsor(p, step);
    }
    IdFacts(p.sched, p.sched.core.created, 0);
    var sponsor := SpawningAfter(p, step)[t].sponsor;
    if Calls(p, step).Some? {
      VertexFacts(p.sched, Calls(p, step).value, sponsor);
    }
  }

  lemma StageFacts(p: State, step: Step, t: TaskId)
    requires CanStep(p, step) && t in CommandsAfter(p, step)
    requires forall u: TaskId :: u in p.spawning ==> u in p.commands
    ensures t in p.commands || (AddsCommand(p, step) && t == p.sched.core.created)
    ensures t !in p.commands ==> t in SpawningAfter(p, step)
    ensures t !in p.commands && CommandsAfter(p, step)[t].RunKind? ==> SpawningAfter(p, step)[t].stage == NeedEntry
    ensures t !in p.commands ==> SpawningAfter(p, step)[t].stage != NeedCommit
    ensures t in p.commands && t < p.sched.core.created ==>
      && CommandsAfter(p, step)[t] == p.commands[t]
      && (t in SpawningAfter(p, step) ==> t in p.spawning)
      && (t in p.spawning ==> t in SpawningAfter(p, step) || (step == Commit(t) && p.spawning[t].stage == NeedCommit))
      && (t in SpawningAfter(p, step) ==>
            || SpawningAfter(p, step)[t].stage == p.spawning[t].stage
            || (step == LinkEntry(t) && SpawningAfter(p, step)[t].stage == NeedTarget)
            || (step == LinkTarget(t) && SpawningAfter(p, step)[t].stage == NeedCommit))
  {
    hide SR.Enabled, Polite;
  }

  lemma LinksKept(p: State, step: Step)
    requires Static(p) && Spawns(p) && Links(p) && CanStep(p, step) && Safe(p, step)
    ensures Links(Apply(p, step))
  {
    hide SR.Inv, SR.Apply, SR.Enabled, LimitAfter, LifeAfter, SpawningAfter, CommandsAfter, ExecutedAfter, Polite;
    var p' := Apply(p, step);
    SchedView(p, step);
    if Calls(p, step).Some? {
      RecordFacts(p.sched, Calls(p, step).value);
    }
    forall t: TaskId | t in p'.commands
      ensures PastEntry(p', t) ==> p.entry in p'.sched.completed || (p.entry, t) in p'.sched.deps
      ensures PastTarget(p', t) ==> (t, TargetOf(p', t)) in p'.sched.deps
    {
      StageFacts(p, step, t);
      LiveFacts(p.sched, p.entry);
      LiveFacts(p.sched, t);
      if t in p.commands {
        assert PastEntry(p', t) ==> PastEntry(p, t) || step == LinkEntry(t);
        assert PastTarget(p', t) ==> PastTarget(p, t) || step == LinkTarget(t);
      }
    }
  }

  /** A command that has run holds one of the commits that have not been answered. */
  lemma UnansweredCommit(p: State, t: TaskId)
    requires Static(p) && Limited(p) && Ran(p) && t in p.commands && t in p.executed && t !in p.notified
    ensures p.limit.notified < |p.limit.commits|
  {
    hide SR.Inv;
    ReleasedFacts(p.sched, t);
    var all := set u: TaskId | u in p.limit.commits;
    forall u: TaskId | u in p.notified ensures u in all {
      ReleasedFacts(p.sched, u);
    }
    assert p.notified + {t} <= all;
    SetOfSeq(p.limit.commits, all);
    SmallerSet(p.notified + {t}, all);
  }

  lemma {:induction false} SetOfSeq(ts: seq<TaskId>, all: set<TaskId>)
    requires all == set u: TaskId | u in ts
    ensures |all| <= |ts|
  {
    if |ts| == 0 {
      assert all == {};
    } else {
      var front := ts[..|ts| - 1];
      var rest := set u: TaskId | u in front;
      SetOfSeq(front, rest);
      assert all == rest + {ts[|ts| - 1]} by {
        assert ts == front + [ts[|ts| - 1]];
      }
    }
  }

  lemma SmallerSet(a: set<TaskId>, b: set<TaskId>)
    requires a <= b
    ensures |a| <= |b|
  {
    assert b == a + (b - a);
  }

  lemma LimitedKept(p: State, step: Step)
    requires Static(p) && Spawns(p) && Limited(p) && Ran(p) && CanStep(p, step) && Safe(p, step)
    ensures Limited(Apply(p, step))
  {
    hide SR.Inv, SR.Apply, SR.Enabled, LifeAfter, SpawningAfter, CommandsAfter, ExecutedAfter, SchedAfter, Conserved;
    hide LimitAfter, Polite, Static, Spawns, SR.NoRepeats, Calls, CanStep, Safe, Ran;
    var p' := Apply(p, step);
    LimitFacts(p, step);
    forall t: TaskId
      ensures t in p'.limit.requests <==> t in p'.commands && t !in p'.spawning
      ensures t in p'.limit.commits <==> t in p'.commands && t in p'.sched.counted
    {
      RequestsKept(p, step, t);
      CommitsKept(p, step, t);
    }
    RequestsDiffer(p, step);
    NotifiedOnce(p, step);
  }

  lemma NotifiedOnce(p: State, step: Step)
    requires CanStep(p, step)
    ensures step.Notify? ==> step.t !in p.notified
  {
    hide SR.Enabled, Polite;
  }

  lemma RequestsDiffer(p: State, step: Step)
    requires Limited(p) && CanStep(p, step)
    ensures SR.NoRepeats(p.limit.requests + if step.Commit? then [step.t] else [])
  {
    hide SR.Enabled, Polite;
  }

  lemma RequestsKept(p: State, step: Step, t: TaskId)
    requires Static(p) && Spawns(p) && Limited(p) && CanStep(p, step)
    ensures t in p.limit.requests + (if step.Commit? then [step.t] else []) <==>
      t in CommandsAfter(p, step) && t !in SpawningAfter(p, step)
  {
    hide SR.Inv, SR.Enabled, Polite, Conserved;
    if t in CommandsAfter(p, step) {
      StageFacts(p, step, t);
    }
  }

  /** The commands a step commits. */
  ghost function CommitsOf(p: State, step: Step): seq<TaskId> {
    match step
    case Commit(t) => if p.limit.remaining == 0 then [] else [t]
    case Notify(_) => if |p.limit.parked| == 0 then [] else [p.limit.parked[0]]
    case _ => []
  }

  lemma CommitsKept(p: State, step: Step, t: TaskId)
    requires Static(p) && Spawns(p) && Limited(p) && CanStep(p, step) && Safe(p, step)
    ensures t in p.limit.commits + CommitsOf(p, step) <==> t in CommandsAfter(p, step) && t in SchedAfter(p, step).counted
  {
    hide SR.Inv, CanStep, Safe, CommitsOf, CommandsAfter, SchedAfter, SR.NoRepeats, Conserved;
    IdFacts(p.sched, p.sched.core.created, 0);
    CommandsGrow(p, step);
    CountedAfter(p, step, t);
    CommitsAreCommands(p, step, t);
  }

  /** What a step adds to the committed tasks. */
  lemma CountedAfter(p: State, step: Step, t: TaskId)
    requires SR.Inv(p.sched) && CanStep(p, step) && Safe(p, step)
    ensures t in SchedAfter(p, step).counted <==>
      t in p.sched.counted || t in CommitsOf(p, step) || (step.Other? && step.step == SR.CountCommit(t))
  {
    hide SR.Inv, SR.Enabled, SR.Apply, SR.CanStep, Polite;
    if Calls(p, step).Some? {
      RecordFacts(p.sched, Calls(p, step).value);
    }
  }

  lemma CommitsAreCommands(p: State, step: Step, t: TaskId)
    requires Spawns(p) && Limited(p) && CanStep(p, step)
    ensures t in CommitsOf(p, step) ==> t in p.commands
    ensures step == Other(SR.CountCommit(t)) ==> t !in CommandsAfter(p, step)
  {
    hide SR.CanStep, SR.NoRepeats, Conserved;
    if step.Notify? && |p.limit.parked| > 0 {
      ParkedAreRequests(p.limit) by { assert Conserved(p.limit); }
    }
  }

  lemma ParkedAreRequests(l: Limit)
    requires Conserved(l) && |l.parked| > 0
    ensures l.parked[0] in l.requests
  {
    assert l.requests[|l.commits|] == l.parked[0];
  }

  lemma LimitFacts(p: State, step: Step)
    requires Static(p) && Spawns(p) && Limited(p) && Ran(p) && CanStep(p, step)
    ensures Conserved(LimitAfter(p, step))
    ensures LimitAfter(p, step).requests == p.limit.requests + if step.Commit? then [step.t] else []
    ensures LimitAfter(p, step).commits == p.limit.commits + CommitsOf(p, step)
    ensures LimitAfter(p, step).notified == p.limit.notified + if step.Notify? then 1 else 0
  {
    hide SR.Inv, SR.Enabled, Polite, Spawns, Static, Ran, SR.NoRepeats;
    match step {
      case Commit(t) => RequestConserves(p.limit, t);
      case Notify(t) =>
        UnansweredCommit(p, t);
        NotifiedConserves(p.limit);
      case _ =>
    }
  }

  lemma RanKept(p: State, step: Step)
    requires Static(p) && Spawns(p) && Ran(p) && CanStep(p, step) && Safe(p, step)
    ensures Ran(Apply(p, step))
  {
    hide SR.Inv, SR.Apply, SR.Enabled, LifeAfter, SpawningAfter, CommandsAfter, LimitAfter, SchedAfter, ExecutedAfter;
    hide Static, Spawns, CanStep, Safe, Calls;
    var p' := Apply(p, step);
    SchedView(p, step) by {
      assert SR.Inv(p.sched) by { SchedInv(p); }
    }
    CommandsGrow(p, step);
    ExecutedFacts(p, step);
    forall t: TaskId
      ensures Fixed(p, t) && t in p'.sched.completed ==> t in p'.executed
      ensures t in p'.commands && t in p'.sched.completed ==> t in p'.notified
    {
      CompletedHaveRun(p, step, t);
    }
  }

  lemma SchedInv(p: State)
    requires Static(p)
    ensures SR.Inv(p.sched)
  {}

  lemma CompletedHaveRun(p: State, step: Step, t: TaskId)
    requires Static(p) && Ran(p) && CanStep(p, step) && Safe(p, step)
    ensures Fixed(p, t) && t in SchedAfter(p, step).completed ==> t in p.executed
    ensures t in CommandsAfter(p, step) && t in SchedAfter(p, step).completed ==> t in p.notified
  {
    hide SR.Inv, SR.Apply, SR.Enabled;
    IdFacts(p.sched, t, t);
    CommandsGrow(p, step);
    if Calls(p, step).Some? {
      RecordFacts(p.sched, Calls(p, step).value);
    }
  }

  lemma ExecutedFacts(p: State, step: Step)
    requires Static(p) && CanStep(p, step)
    ensures p.executed <= ExecutedAfter(p, step)
    ensures forall t: TaskId :: t in ExecutedAfter(p, step) ==> t in p.executed || (t in p.sched.released && Own(p, t))
    ensures step.Notify? ==> step.t in p.executed && step.t in p.commands
  {
    hide SR.Inv, SR.Enabled, Polite;
    forall t: TaskId ensures t in p.sched.taken ==> t in p.sched.released {
      LiveFacts(p.sched, t);
    }
  }

  lemma CommandsGrow(p: State, step: Step)
    requires CanStep(p, step)
    ensures p.commands.Keys <= CommandsAfter(p, step).Keys
    ensures CommandsAfter(p, step).Keys <= p.commands.Keys + {p.sched.core.created}
  {
    hide SR.Enabled, Polite;
  }

  /** While a run command is live the barrier has not been released. */
  lemma RunsBeforeBarrier(p: State, t: TaskId)
    requires Static(p) && Spawns(p) && Links(p) && t in p.commands && p.commands[t].RunKind? && t in p.sched.taken
    ensures p.barrier !in p.sched.released && t !in p.spawning
    ensures p.entry in p.sched.completed
  {
    hide SR.Inv;
    LiveFacts(p.sched, t);
    assert PastTarget(p, t) && PastEntry(p, t);
    ReleasedFacts(p.sched, t);
    if p.barrier in p.sched.released {
      ReleasedFacts(p.sched, p.barrier);
    }
  }

  /** While a finaliser is live the terminal has not been released, and it runs on its own worker. */
  lemma FinalizersBeforeTerminal(p: State, t: TaskId)
    requires Static(p) && Spawns(p) && Links(p) && Finalizers(p)
    requires t in p.commands && p.commands[t].FinalizerKind? && t in p.sched.taken
    ensures p.terminal !in p.sched.released && p.sched.taken[t] == p.commands[t].worker
  {
    hide SR.Inv;
    LiveFacts(p.sched, t);
    assert PastTarget(p, t);
    if p.terminal in p.sched.released {
      ReleasedFacts(p.sched, p.terminal);
    }
    TakenAtHome(p.sched, t);
  }

  lemma TakenAtHome(s: SR.State, t: TaskId)
    requires SR.Inv(s) && t in s.taken && t in s.core.vertices && s.core.vertices[t].affinity.Pinned?
    ensures s.taken[t] == s.core.vertices[t].affinity.worker
  {
    hide Queued, WellFormed, SR.Counts;
  }

  lemma FinalizersStayPinned(p: State, step: Step, t: TaskId)
    requires Static(p) && Finalizers(p) && CanStep(p, step) && Safe(p, step)
    requires t in CommandsAfter(p, step) && CommandsAfter(p, step)[t].FinalizerKind?
    ensures CommandsAfter(p, step)[t].worker < p.next + if step.NextFinalizer? then 1 else 0
    ensures t in SchedAfter(p, step).core.vertices ==>
      SchedAfter(p, step).core.vertices[t].affinity == Pinned(CommandsAfter(p, step)[t].worker)
  {
    hide SR.Inv, SR.Apply, SR.Enabled, SpawningAfter, LimitAfter, LifeAfter, ExecutedAfter, Polite;
    IdFacts(p.sched, t, t);
    if Calls(p, step).Some? {
      VertexFacts(p.sched, Calls(p, step).value, t);
    }
  }

  lemma OneFinalizerEach(p: State, step: Step, t: TaskId, u: TaskId)
    requires Finalizers(p) && CanStep(p, step)
    requires t in CommandsAfter(p, step) && u in CommandsAfter(p, step)
    requires CommandsAfter(p, step)[t].FinalizerKind? && CommandsAfter(p, step)[t] == CommandsAfter(p, step)[u]
    ensures t == u
  {
    hide SR.Enabled, Polite;
  }

  /** Only runs, finalisers and the barrier touch what finalisers depend on. */
  lemma PendingAfter(p: State, step: Step, t: TaskId, w: nat)
    requires Static(p) && Ran(p) && Finalizers(p) && CanStep(p, step) && Safe(p, step)
    ensures Pending(Apply(p, step), t, w) <==>
      || (Pending(p, t, w) && step != FinalizeCommand(t))
      || (step.NextFinalizer? && p.life.local[p.next] && t == p.sched.core.created && w == p.next)
  {
    hide SR.Inv, SR.Apply, SR.Enabled, SpawningAfter, LimitAfter, LifeAfter, SchedAfter, Polite;
    IdFacts(p.sched, p.sched.core.created, 0);
  }

  lemma FlagsAfter(p: State, step: Step, w: nat)
    requires Static(p) && Spawns(p) && Links(p) && Finalizers(p) && CanStep(p, step) && w < |p.life.local|
    ensures |LifeAfter(p, step).local| == |p.life.local|
    ensures step.RunCommand? ==> p.next == 0
    ensures !step.RunCommand? ==>
      (LifeAfter(p, step).local[w] <==> p.life.local[w] && !(step.FinalizeCommand? && p.commands[step.t].worker == w))
  {
    hide SR.Inv, SR.Enabled, Polite;
    if step.RunCommand? {
      RunsBeforeBarrier(p, step.t);
    } else if step.FinalizeCommand? {
      FinalizersBeforeTerminal(p, step.t);
    }
  }

  lemma FinalizersKept(p: State, step: Step)
    requires Static(p) && Spawns(p) && Links(p) && Ran(p) && Finalizers(p) && CanStep(p, step) && Safe(p, step)
    ensures Finalizers(Apply(p, step))
  {
    hide SR.Inv, SR.Apply, SR.Enabled, SpawningAfter, LimitAfter, Links, Spawns, SchedAfter, CommandsAfter, LifeAfter;
    hide Pending, Polite, Static, Ran, Covered;
    var p' := Apply(p, step);
    forall t: TaskId | t in p'.commands && p'.commands[t].FinalizerKind?
      ensures p'.commands[t].worker < p'.next
      ensures t in p'.sched.core.vertices ==> p'.sched.core.vertices[t].affinity == Pinned(p'.commands[t].worker)
    {
      FinalizersStayPinned(p, step, t);
    }
    forall t: TaskId, u: TaskId |
      t in p'.commands && u in p'.commands && p'.commands[t].FinalizerKind? && p'.commands[t] == p'.commands[u]
      ensures t == u
    {
      OneFinalizerEach(p, step, t, u);
    }
    BarrierFacts(p, step);
    forall w: nat | w < p'.next ensures Covered(p', w) {
      CoveredAfter(p, step, w);
    }
  }

  lemma {:induction false} BarrierFacts(p: State, step: Step)
    requires Static(p) && Ran(p) && Finalizers(p) && CanStep(p, step) && Safe(p, step)
    ensures var p' := Apply(p, step);
      && |p'.life.local| == |p.life.local|
      && p'.next <= |p.life.local| && (p'.next > 0 ==> p.barrier in p'.sched.released)
      && (p.barrier in p'.executed ==> p'.next == |p.life.local|)
  {
    hide SR.Inv, SR.Apply, SR.Enabled, SpawningAfter, LimitAfter, CommandsAfter, Polite;
    LiveFacts(p.sched, p.barrier);
    SchedView(p, step);
  }

  lemma CoveredAfter(p: State, step: Step, w: nat)
    requires Static(p) && Spawns(p) && Links(p) && Ran(p) && Finalizers(p) && CanStep(p, step) && Safe(p, step)
    requires w < Apply(p, step).next
    ensures Covered(Apply(p, step), w)
  {
    hide SR.Inv, SR.Apply, SR.Enabled, SpawningAfter, LimitAfter, Links, Spawns, SchedAfter, CommandsAfter, LifeAfter;
    hide Polite, Static, Ran, ExecutedAfter;
    var p' := Apply(p, step);
    FlagsAfter(p, step, w);
    assert w < p.next ==> Covered(p, w);
    forall t: TaskId
      ensures Pending(p', t, w) <==>
        || (Pending(p, t, w) && step != FinalizeCommand(t))
        || (step.NextFinalizer? && p.life.local[p.next] && t == p.sched.core.created && w == p.next)
    {
      PendingAfter(p, step, t, w);
    }
    if step.NextFinalizer? && w == p.next && p.life.local[w] {
      assert Pending(p', p.sched.core.created, w);
    } else if w < p.next && p'.life.local[w] {
      var t: TaskId :| Pending(p, t, w);
      assert Pending(p', t, w);
    }
  }

  // ----- The log

  /** What is known when a run command is about to run. */
  lemma BeforeRun(p: State, t: TaskId, w: nat)
    requires Static(p) && Spawns(p) && Links(p) && Ran(p) && Finalizers(p) && Logged(p)
    requires t in p.commands && p.commands[t].RunKind? && Running(p, t) && w == p.sched.taken[t] < |p.life.local|
    ensures GlobalInit in p.life.log && GlobalFin !in p.life.log
    ensures LocalFin(w) !in p.life.log && RunCall(w, t) !in p.life.log
    ensures p.life.local[w] <==> LocalInit(w) in p.life.log
  {
    hide SR.Inv, WellOrdered;
    RunsBeforeBarrier(p, t);
    if p.terminal in p.sched.released {
      ReleasedFacts(p.sched, p.terminal);
      LiveFacts(p.sched, p.barrier);
    }
  }

  lemma BeforeFinalizer(p: State, t: TaskId, w: nat)
    requires Static(p) && Spawns(p) && Links(p) && Ran(p) && Finalizers(p) && Logged(p)
    requires t in p.commands && p.commands[t].FinalizerKind? && Running(p, t) && w == p.sched.taken[t] < |p.life.local|
    ensures p.life.local[w] && GlobalFin !in p.life.log && LocalInit(w) in p.life.log && LocalFin(w) !in p.life.log
    ensures w < p.next
  {
    hide SR.Inv, WellOrdered;
    FinalizersBeforeTerminal(p, t);
    assert Pending(p, t, w);
    assert Covered(p, w);
  }

  /** A released terminal leaves no finaliser behind. */
  lemma FinalizerDone(p: State, t: TaskId)
    requires Static(p) && Spawns(p) && Links(p) && Ran(p) && t in p.commands && p.commands[t].FinalizerKind?
    requires p.terminal in p.sched.released
    ensures t in p.executed
  {
    hide SR.Inv;
    ReleasedFacts(p.sched, p.terminal);
    LiveFacts(p.sched, p.barrier);
    assert PastTarget(p, t);
  }

  /** When the terminal runs, every worker that was initialised has been finalised. */
  lemma BeforeGlobalFinalize(p: State)
    requires Static(p) && Spawns(p) && Links(p) && Ran(p) && Finalizers(p) && Logged(p)
    requires CanStep(p, GlobalFinalize)
    ensures MayFollow(p.life.log, GlobalFin) && p.life.global
  {
    hide SR.Inv, WellOrdered;
    LiveFacts(p.sched, p.terminal);
    ReleasedFacts(p.sched, p.terminal);
    LiveFacts(p.sched, p.barrier);
    ReleasedFacts(p.sched, p.barrier);
    forall w: nat | LocalInit(w) in p.life.log ensures LocalFin(w) in p.life.log {
      assert Covered(p, w);
      if p.life.local[w] {
        var t: TaskId :| Pending(p, t, w);
        FinalizerDone(p, t);
      }
    }
  }

  /** A call that the order allows is added to the log, and the flags follow it. */
  lemma LoggedKept(p: State, step: Step)
    requires Static(p) && Spawns(p) && Links(p) && Ran(p) && Finalizers(p) && Logged(p)
    requires CanStep(p, step) && Safe(p, step)
    ensures Logged(Apply(p, step))
  {
    hide SR.Inv, SR.Apply, SR.Enabled, SpawningAfter, CommandsAfter, LimitAfter, SchedAfter, Links, Spawns, Agrees;
    hide Polite, GlobalInitialized, GlobalFinalized, LocalFinalized, RunOn, Ran, Finalizers, Covered;
    match step {
      case GlobalInitialize =>
        GlobalInitAgrees(p.life, p.next, p.executed, p.entry, p.terminal);
      case RunCommand(t) =>
        BeforeRun(p, t, p.sched.taken[t]);
        RunAgrees(p.life, p.next, p.executed, p.entry, p.terminal, p.sched.taken[t], t);
      case FinalizeCommand(t) =>
        BeforeFinalizer(p, t, p.sched.taken[t]);
        LocalFinAgrees(p.life, p.next, p.executed, p.entry, p.terminal, p.sched.taken[t], t);
      case GlobalFinalize =>
        BeforeGlobalFinalize(p);
        GlobalFinAgrees(p.life, p.next, p.executed, p.entry, p.terminal);
      case BarrierDone =>
        QuietAgrees(p.life, p.next, p.next, p.executed, p.entry, p.terminal, p.barrier);
      case NextFinalizer =>
        QuietAgrees(p.life, p.next, p.next + 1, p.executed, p.entry, p.terminal, p.barrier);
      case _ =>
    }
  }

  /** A run command waits where it was asked to: its affinity is the one given when it was added, for as long as
      it is live. */
  lemma CommandsKeepTheirPlace(p: State, step: Step, t: TaskId)
    requires Static(p) && CanStep(p, step) && Safe(p, step) && t in SchedAfter(p, step).core.vertices
    ensures step.SpawnRun? && t == p.sched.core.created ==>
      && t in CommandsAfter(p, step) && CommandsAfter(p, step)[t] == RunKind
      && SchedAfter(p, step).core.vertices[t].affinity == step.a
    ensures t in p.sched.core.vertices ==>
      SchedAfter(p, step).core.vertices[t].affinity == p.sched.core.vertices[t].affinity
  {
    hide SR.Inv, SR.Apply, SR.Enabled, SR.CanStep, Polite;
    if Calls(p, step).Some? {
      VertexFacts(p.sched, Calls(p, step).value, t);
    }
  }

  // ----- The code of a process task never gets stuck

  /** A step that takes the code of task `t` further: its end, or, for the barrier, the next worker or the next
      call for a finaliser that is being added. */
  ghost predicate Advances(p: State, step: Step, t: TaskId)
    requires CanStep(p, step)
  {
    || t in ExecutedAfter(p, step)
    || (t == p.barrier && step.NextFinalizer?)
    || (t == p.barrier && AddsFurther(step) && step.t in p.spawning && p.spawning[step.t].sponsor == t)
  }

  ghost predicate AddsFurther(step: Step) {
    step.LinkEntry? || step.LinkTarget? || step.Commit?
  }

  /** Whatever a worker has taken, its code can go on. */
  lemma CodeGoesOn(p: State, t: TaskId) returns (step: Step)
    requires Inv(p) && Own(p, t) && Running(p, t)
    ensures CanStep(p, step) && Safe(p, step) && Advances(p, step, t)
  {
    hide SR.Inv, Links, Limited, Ran, Logged, Called, SR.CanStep, Safe;
    WorkerOfTaken(p.sched, t) by { SchedInv(p); }
    if t == p.entry {
      step := GlobalInitialize;
    } else if t == p.terminal {
      step := GlobalFinalize;
    } else if t in p.commands {
      step := if p.commands[t].RunKind? then RunCommand(t) else FinalizeCommand(t);
    } else if p.next < |p.life.local| {
      step := NextFinalizer;
    } else if u: TaskId :| u in p.spawning && p.spawning[u].sponsor == p.barrier {
      step := AddingGoesOn(p, u);
    } else {
      step := BarrierDone;
    }
    hide Inv, CanStep;
    StepIsSafe(p, step);
  }

  lemma WorkerOfTaken(s: SR.State, t: TaskId)
    requires SR.Inv(s) && t in s.taken
    ensures s.taken[t] < |s.core.nodeOf|
  {
    hide WellFormed, Queued, SR.Counts;
  }

  /** A command that is being added can be linked further, or committed. */
  lemma AddingGoesOn(p: State, u: TaskId) returns (step: Step)
    requires Inv(p) && u in p.spawning
    ensures AddsFurther(step) && step.t == u && CanStep(p, step) && Safe(p, step)
  {
    hide SR.Inv, Static, Links, Limited, Ran, Logged, Called, Finalizers, SR.CanStep, Safe;
    step := match p.spawning[u].stage
      case NeedEntry => LinkEntry(u)
      case NeedTarget => LinkTarget(u)
      case NeedCommit => Commit(u);
    StepIsSafe(p, step);
  }

  // ----- Calls of the processor

  /** A run command calls the processor for itself, on the worker that has taken it; nothing else does. */
  lemma CallsAfter(p: State, step: Step, w: nat, t: TaskId)
    requires CanStep(p, step)
    ensures RunCall(w, t) in LifeAfter(p, step).log <==>
      RunCall(w, t) in p.life.log || (step == RunCommand(t) && p.sched.taken[t] == w)
  {
    hide SR.CanStep, Polite;
  }

  /** Run commands whose code has run after a step. */
  lemma RunsAfter(p: State, step: Step, t: TaskId)
    requires Static(p) && Ran(p) && CanStep(p, step) && t in CommandsAfter(p, step) && CommandsAfter(p, step)[t].RunKind?
    ensures t in ExecutedAfter(p, step) <==> t in p.executed || step == RunCommand(t)
    ensures t in ExecutedAfter(p, step) ==> t in p.commands && p.commands[t].RunKind?
  {
    hide SR.Inv, SR.CanStep, Polite;
    IdFacts(p.sched, p.sched.core.created, 0);
  }

  /** Who has taken a task does not change until it is completed. */
  lemma TakenStays(s: SR.State, step: SR.Step, t: TaskId)
    requires SR.Inv(s) && SR.Enabled(s, step) && t in s.taken
    ensures step == SR.EraseTask(t) || (t in SR.Apply(s, step).taken && SR.Apply(s, step).taken[t] == s.taken[t])
    ensures step == SR.EraseTask(t) ==> t in SR.Apply(s, step).completed
  {
    hide SR.Inv, SR.Enabled, SR.Apply, Queued, SR.Releases;
    SchedPlaced(s);
    SR.TakenAfter(s, step);
    SR.QueuedAfter(s, step, t);
    RecordFacts(s, step);
    NotTakenTwice(s, step, t);
  }

  lemma SchedPlaced(s: SR.State)
    requires SR.Inv(s)
    ensures QueuesPlaced(s.core)
  {
    hide QueuesPlaced, WellFormed;
  }

  lemma NotTakenTwice(s: SR.State, step: SR.Step, t: TaskId)
    requires SR.Inv(s) && SR.Enabled(s, step)
    ensures t in s.taken ==> !(step.Take? && step.t == t)
  {
    hide WellFormed, Queued, SR.Counts, SR.Recorded, SR.Tally, SR.Placed;
    SR.TakesQueued(s, step, t);
  }

  /** Every step keeps: the processor has been called for exactly the run commands that have run. */
  lemma CalledKept(p: State, step: Step)
    requires Static(p) && Ran(p) && Called(p) && CanStep(p, step) && Safe(p, step)
    ensures Called(Apply(p, step))
  {
    hide Static, Ran, CanStep, Safe, SchedAfter, LifeAfter, LimitAfter, SpawningAfter, CommandsAfter, ExecutedAfter;
    var p' := Apply(p, step);
    forall t: TaskId | t in p'.commands && p'.commands[t].RunKind? && t in p'.executed
      ensures exists w: nat :: RunCall(w, t) in p'.life.log
    {
      CallFound(p, step, t);
    }
    forall w: nat, t: TaskId | RunCall(w, t) in p'.life.log
      ensures t in p'.executed && t in p'.commands && p'.commands[t].RunKind?
      ensures (t in p'.sched.taken && p'.sched.taken[t] == w) || t in p'.sched.completed
    {
      CallKept(p, step, w, t);
    }
    forall w: nat, v: nat, t: TaskId | RunCall(w, t) in p'.life.log && RunCall(v, t) in p'.life.log ensures w == v {
      CallsAfter(p, step, w, t);
      CallsAfter(p, step, v, t);
      RunsOnce(p, step, t);
    }
  }

  lemma CallFound(p: State, step: Step, t: TaskId)
    requires Static(p) && Ran(p) && Called(p) && CanStep(p, step)
    requires t in CommandsAfter(p, step) && CommandsAfter(p, step)[t].RunKind? && t in ExecutedAfter(p, step)
    ensures exists w: nat :: RunCall(w, t) in LifeAfter(p, step).log
  {
    hide Static, Ran, LifeAfter, CommandsAfter, ExecutedAfter, SR.CanStep, Polite;
    RunsAfter(p, step, t);
    if step == RunCommand(t) {
      CallsAfter(p, step, p.sched.taken[t], t);
    } else {
      var w: nat :| RunCall(w, t) in p.life.log;
      CallsAfter(p, step, w, t);
    }
  }

  lemma RunsOnce(p: State, step: Step, t: TaskId)
    requires CanStep(p, step)
    ensures step == RunCommand(t) ==> t !in p.executed
  {
    hide SR.CanStep, Polite;
  }

  lemma CallKept(p: State, step: Step, w: nat, t: TaskId)
    requires Static(p) && Ran(p) && Called(p) && CanStep(p, step) && Safe(p, step)
    requires RunCall(w, t) in LifeAfter(p, step).log
    ensures t in ExecutedAfter(p, step) && t in CommandsAfter(p, step) && CommandsAfter(p, step)[t].RunKind?
    ensures (t in SchedAfter(p, step).taken && SchedAfter(p, step).taken[t] == w) || t in SchedAfter(p, step).completed
  {
    hide LifeAfter, SR.Inv, SR.Enabled, SR.Apply, SR.CanStep, Polite;
    CallsAfter(p, step, w, t);
    IdFacts(p.sched, p.sched.core.created, 0);
    SchedView(p, step);
    if Calls(p, step).Some? && t in p.sched.taken {
      TakenStays(p.sched, Calls(p, step).value, t);
    }
  }

  lemma InvKept(p: State, step: Step)
    requires Inv(p) && CanStep(p, step)
    ensures Safe(p, step) && Inv(Apply(p, step))
  {
    hide Static, Spawns, Links, Limited, Ran, Finalizers, Logged, Called, Apply, CanStep, Safe;
    StepIsSafe(p, step);
    StaticKept(p, step);
    SpawnsKept(p, step);
    LinksKept(p, step);
    LimitedKept(p, step);
    RanKept(p, step);
    FinalizersKept(p, step);
    LoggedKept(p, step);
    CalledKept(p, step);
  }

  // ----- Runs

  /** The process task has just been created: three tasks in a row, nothing committed, nothing run. */
  ghost predicate Created(p: State) {
    && SR.Inv(p.sched)
    && p.entry != p.barrier && p.barrier != p.terminal && p.entry != p.terminal
    && p.entry in p.sched.tokens && p.barrier in p.sched.tokens && p.terminal in p.sched.tokens
    && (p.entry, p.barrier) in p.sched.deps && (p.barrier, p.terminal) in p.sched.deps
    && (forall u: TaskId :: u in p.upstream ==> !Fixed(p, u) && (u, p.barrier) in p.sched.deps)
    && p.commands == map[] && p.spawning == map[] && p.executed == {} && p.notified == {} && p.next == 0
    && p.life == Life(false, seq(|p.sched.core.nodeOf|, _ => false), [])
    && p.limit == Fresh(p.limit.max)
  }

  lemma InvAtCreation(p: State)
    requires Created(p)
    ensures Inv(p)
  {
    hide SR.Inv;
    LiveFacts(p.sched, p.entry);
    LiveFacts(p.sched, p.barrier);
    LiveFacts(p.sched, p.terminal);
    IdFacts(p.sched, p.entry, p.barrier);
    IdFacts(p.sched, p.terminal, p.terminal);
  }

  ghost predicate Next(p: State, p': State) {
    exists step :: CanStep(p, step) && Safe(p, step) && p' == Apply(p, step)
  }

  ghost predicate Run(run: seq<State>) {
    && |run| > 0 && Created(run[0])
    && forall i :: 0 <= i < |run| - 1 ==> Next(run[i], run[i + 1])
  }

  lemma {:induction false} RunKeepsInv(run: seq<State>, i: nat)
    requires Run(run) && i < |run|
    ensures Inv(run[i])
  {
    hide Inv, CanStep, Safe, Apply, Created;
    if i == 0 {
      InvAtCreation(run[0]);
    } else {
      RunKeepsInv(run, i - 1);
      assert Next(run[i - 1], run[i]);
      var step :| CanStep(run[i - 1], step) && Safe(run[i - 1], step) && run[i] == Apply(run[i - 1], step);
      InvKept(run[i - 1], step);
    }
  }

  /** In every run the processor is called in the promised order, and no step of the process task ever
      breaks the scheduler's rules: each dependency is added while its target is still unreleased. */
  lemma ProcessorCalledInOrder(run: seq<State>, i: nat)
    requires Run(run) && i < |run|
    ensures WellOrdered(run[i].life.log)
    ensures forall step :: CanStep(run[i], step) ==> Safe(run[i], step)
  {
    RunKeepsInv(run, i);
    forall step | CanStep(run[i], step) ensures Safe(run[i], step) {
      hide Inv, CanStep, Safe;
      StepIsSafe(run[i], step);
    }
    hide SR.Inv, WellOrdered;
  }

  /** Once the terminal has run, every worker that was initialised has been finalised, and every command
      has run. */
  lemma FinishedProcessLeavesNothing(run: seq<State>, i: nat)
    requires Run(run) && i < |run| && run[i].terminal in run[i].executed
    ensures GlobalInit in run[i].life.log && GlobalFin in run[i].life.log
    ensures forall w: nat :: LocalInit(w) in run[i].life.log ==> LocalFin(w) in run[i].life.log
    ensures forall t: TaskId :: t in run[i].commands ==> t in run[i].executed
    ensures forall t: TaskId :: t in run[i].commands && run[i].commands[t].RunKind? ==>
      exists w: nat :: RunCall(w, t) in run[i].life.log
  {
    RunKeepsInv(run, i);
    var p := run[i];
    hide SR.Inv;
    FinalizedInLog(p.life.log);
    ReleasedFacts(p.sched, p.terminal);
    LiveFacts(p.sched, p.barrier);
    forall t: TaskId | t in p.commands ensures t in p.executed {
      if p.commands[t].FinalizerKind? {
        FinalizerDone(p, t);
      } else {
        RunDone(p, t);
      }
    }
  }

  /** The processor has been called for a run command exactly when its code has run: once, and on the worker
      that took it. */
  lemma ProcessorCalledForEveryCommand(run: seq<State>, i: nat, t: TaskId)
    requires Run(run) && i < |run| && t in run[i].commands && run[i].commands[t].RunKind?
    ensures t in run[i].executed <==> exists w: nat :: RunCall(w, t) in run[i].life.log
    ensures forall k, l :: 0 <= k < l < |run[i].life.log| && run[i].life.log[k].RunCall? && run[i].life.log[l].RunCall? ==>
      run[i].life.log[k].task != run[i].life.log[l].task
    ensures forall j, w: nat :: 0 <= j <= i && t in run[j].sched.taken && RunCall(w, t) in run[i].life.log ==>
      w == run[j].sched.taken[t]
  {
    hide CanStep, Safe, Apply, Inv;
    RunKeepsInv(run, i);
    var log := run[i].life.log;
    CalledOnce(run[i]);
    forall j, w: nat | 0 <= j <= i && t in run[j].sched.taken && RunCall(w, t) in log ensures w == run[j].sched.taken[t] {
      RunKeepsInv(run, j);
      HeldOn(run, j, i, t, run[j].sched.taken[t]);
      HeldRuns(run[i], t, run[j].sched.taken[t], w);
    }
  }

  lemma CalledOnce(p: State)
    requires Inv(p)
    ensures forall t: TaskId :: t in p.commands && p.commands[t].RunKind? ==>
      (t in p.executed <==> exists w: nat :: RunCall(w, t) in p.life.log)
    ensures forall k, l :: 0 <= k < l < |p.life.log| && p.life.log[k].RunCall? && p.life.log[l].RunCall? ==>
      p.life.log[k].task != p.life.log[l].task
  {
    hide Static, Spawns, Links, Limited, Ran, Finalizers, WellOrdered;
    var log := p.life.log;
    forall k, l | 0 <= k < l < |log| && log[k].RunCall? && log[l].RunCall? ensures log[k].task != log[l].task {
      if log[k].task == log[l].task {
        assert RunCall(log[k].worker, log[k].task) in log && RunCall(log[l].worker, log[l].task) in log;
        RunsLieBetween(log, k, l, 0);
      }
    }
  }

  /** The task is with this worker, or it is completed and the processor was called there if at all. */
  ghost predicate HeldBy(p: State, t: TaskId, w: nat) {
    || (t in p.sched.taken && p.sched.taken[t] == w)
    || (t in p.sched.completed && forall v: nat :: RunCall(v, t) in p.life.log ==> v == w)
  }

  lemma HeldRuns(p: State, t: TaskId, w: nat, v: nat)
    requires Inv(p) && HeldBy(p, t, w) && RunCall(v, t) in p.life.log
    ensures v == w
  {
    hide Static, Spawns, Links, Limited, Ran, Finalizers, Logged;
    if t in p.sched.taken {
      LiveFacts(p.sched, t) by { SchedInv(p); }
    }
  }

  lemma {:induction false} HeldOn(run: seq<State>, j: nat, i: nat, t: TaskId, w: nat)
    requires Run(run) && j <= i < |run| && HeldBy(run[j], t, w)
    ensures HeldBy(run[i], t, w)
    decreases i - j
  {
    hide CanStep, Safe, Apply, HeldBy, Inv;
    if j == i {
    } else {
      RunKeepsInv(run, j);
      assert Next(run[j], run[j + 1]);
      var step :| CanStep(run[j], step) && Safe(run[j], step) && run[j + 1] == Apply(run[j], step);
      HeldAfter(run[j], step, t, w);
      HeldOn(run, j + 1, i, t, w);
    }
  }

  lemma HeldAfter(p: State, step: Step, t: TaskId, w: nat)
    requires Inv(p) && CanStep(p, step) && Safe(p, step) && HeldBy(p, t, w)
    ensures HeldBy(Apply(p, step), t, w)
  {
    hide Static, Spawns, Links, Limited, Ran, Finalizers, Logged, LifeAfter, CommandsAfter, LimitAfter, SpawningAfter;
    hide ExecutedAfter, SR.Inv, SR.Apply, SR.Enabled, SR.CanStep, Polite;
    SchedView(p, step) by { SchedInv(p); }
    if t in p.sched.taken {
      LiveFacts(p.sched, t) by { SchedInv(p); }
      if Calls(p, step).Some? {
        TakenStays(p.sched, Calls(p, step).value, t) by { SchedInv(p); }
      }
    }
    forall v: nat
      ensures RunCall(v, t) in LifeAfter(p, step).log <==>
        RunCall(v, t) in p.life.log || (step == RunCommand(t) && p.sched.taken[t] == v)
    {
      CallsAfter(p, step, v, t);
    }
  }

  lemma FinalizedInLog(log: seq<Event>)
    requires WellOrdered(log) && GlobalFin in log
    ensures GlobalInit in log
    ensures forall w: nat :: LocalInit(w) in log ==> LocalFin(w) in log
  {
    var j :| 0 <= j < |log| && log[j] == GlobalFin;
    InitialisationComesFirst(log, j);
    assert MayFollow(log[..j], GlobalFin);
    assert log == log[..j] + [GlobalFin];
    hide WellOrdered, MayFollow;
    BeforeGlobalFin(log[..j]);
  }

  lemma BeforeGlobalFin(log: seq<Event>)
    requires MayFollow(log, GlobalFin)
    ensures GlobalInit in log && forall w: nat :: LocalInit(w) in log ==> LocalFin(w) in log
  {}

  /** A released barrier leaves no run command behind, and none can be added any more. */
  lemma RunDone(p: State, t: TaskId)
    requires Static(p) && Spawns(p) && Links(p) && Ran(p) && t in p.commands && p.commands[t].RunKind?
    requires p.barrier in p.sched.released
    ensures t in p.executed
  {
    hide SR.Inv;
    if t in p.spawning {
      TargetUnreleased(p, t);
    } else {
      assert PastTarget(p, t);
      ReleasedFacts(p.sched, p.barrier);
    }
  }

  /** The limit is never exceeded: commands committed but not completed, and what is still available, make
      up the maximum. Parked commands wait only while the limit is used up and leave in order. */
  lemma LimitKept(run: seq<State>, i: nat)
    requires Run(run) && i < |run|
    ensures Conserved(run[i].limit)
    ensures |run[i].limit.commits| - |run[i].notified| + run[i].limit.remaining == run[i].limit.max
    ensures forall t: TaskId ::
      t in run[i].commands <==> t in run[i].spawning || t in run[i].limit.parked || t in run[i].limit.commits
  {
    RunKeepsInv(run, i);
    hide SR.Inv, Links, Ran, Finalizers, Logged;
    var p := run[i];
    forall t: TaskId
      ensures t in p.commands <==> t in p.spawning || t in p.limit.parked || t in p.limit.commits
    {
      assert t in p.limit.requests <==> t in p.limit.commits || t in p.limit.parked;
    }
  }

  // ----- Where runs start

  ghost function CreateNext(s: SR.State): SR.State
    requires WellFormed(s.core)
  {
    SR.Apply(s, SR.Create(Anywhere))
  }

  lemma CreateNextFacts(s: SR.State)
    requires SR.Inv(s)
    ensures WellFormed(s.core) && SR.Inv(CreateNext(s)) && s.core.created in CreateNext(s).tokens
    ensures CreateNext(s).core.created == s.core.created + 1 && CreateNext(s).deps == s.deps
    ensures CreateNext(s).core.nodeOf == s.core.nodeOf
    ensures forall t: TaskId :: t in s.tokens ==> t in CreateNext(s).tokens
  {
    hide SR.Inv, SR.Apply;
    LiveFacts(s, 0);
    SchedFacts(s, SR.Create(Anywhere));
    RecordFacts(s, SR.Create(Anywhere));
    forall t: TaskId ensures t in s.tokens || t == s.core.created ==> t in CreateNext(s).tokens {
      VertexFacts(s, SR.Create(Anywhere), t);
    }
  }

  lemma DependFacts(s: SR.State, x: TaskId, t: TaskId)
    requires SR.Inv(s) && x in s.tokens && t in s.tokens
    ensures SR.Enabled(s, SR.Depend(x, t)) && SR.Inv(SR.Apply(s, SR.Depend(x, t)))
    ensures SR.Apply(s, SR.Depend(x, t)).deps == s.deps + {(x, t)}
    ensures SR.Apply(s, SR.Depend(x, t)).core.nodeOf == s.core.nodeOf
    ensures SR.Apply(s, SR.Depend(x, t)).core.created == s.core.created
    ensures forall u: TaskId :: u in s.tokens ==> u in SR.Apply(s, SR.Depend(x, t)).tokens
  {
    hide SR.Inv, SR.Apply;
    LiveFacts(s, x);
    LiveFacts(s, t);
    SchedFacts(s, SR.Depend(x, t));
    RecordFacts(s, SR.Depend(x, t));
    forall u: TaskId ensures u in s.tokens ==> u in SR.Apply(s, SR.Depend(x, t)).tokens {
      VertexFacts(s, SR.Depend(x, t), u);
    }
  }

  /** create_physical_tasks: three tasks chained by two dependencies make a start for a run. */
  lemma CreatePhysicalTasks(s: SR.State, max: nat) returns (p: State)
    requires SR.Inv(s)
    ensures Created(p) && p.upstream == {} && p.limit.max == max
    ensures p.entry == s.core.created && p.barrier == p.entry + 1 && p.terminal == p.barrier + 1
    ensures p.sched.deps == s.deps + {(p.entry, p.barrier), (p.barrier, p.terminal)}
    ensures p.sched.core.created == s.core.created + 3 && p.sched.core.nodeOf == s.core.nodeOf
    ensures forall t: TaskId :: t in s.tokens ==> t in p.sched.tokens
  {
    hide SR.Inv, SR.Apply, CreateNext, SR.Enabled;
    var entry := s.core.created;
    CreateNextFacts(s);
    var s1 := CreateNext(s);
    CreateNextFacts(s1);
    var s2 := CreateNext(s1);
    CreateNextFacts(s2);
    var s3 := CreateNext(s2);
    DependFacts(s3, entry, entry + 1);
    var s4 := SR.Apply(s3, SR.Depend(entry, entry + 1));
    DependFacts(s4, entry + 1, entry + 2);
    var s5 := SR.Apply(s4, SR.Depend(entry + 1, entry + 2));
    p := State(s5, entry, entry + 1, entry + 2, {}, map[], map[], {}, {}, 0,
      Life(false, seq(|s5.core.nodeOf|, _ => false), []), Fresh(max));
  }
}
