/** Many process tasks on one scheduler, handing fragments to each other. A single process task relies on its
    producers not completing while they hand over; here that is a consequence. */
module ProcessNetworks {
  import opened Options
  import opened TaskGraph
  import opened ProcessLife
  import opened Throttle
  import opened ProcessRuns
  import SR = SchedulerRuns

  /** Who hands over: a process task of the network, and the physical task whose code is running. */
  datatype Hand = Hand(producer: nat, task: TaskId)

  /** `handed` says of every command that was added by a process task of the network who handed it over. */
  datatype Net = Net(procs: seq<State>, handed: map<TaskId, Hand>)

  /** A process task takes a step of its own, or hands a fragment over from one of its running tasks; the
      rest is up to the scheduler and to the tasks that are not in the network. */
  datatype Move =
    | Act(k: nat, step: Step)
    | HandOver(hand: Hand, k: nat, a: Affinity)
    | Environment(st: SR.Step)

  /** What the rest does with the tasks of a process task. Producers of the network may complete at any time
      at which their own code has run. */
  ghost predicate PoliteInNet(net: Net, k: nat, st: SR.Step)
    requires k < |net.procs|
  {
    var p := net.procs[k];
    match st
    case Depend(_, t) => !Own(p, t)
    case CountCommit(t) => t !in p.commands
    case EraseTask(t) =>
      && (Fixed(p, t) ==> t in p.executed) && (t in p.commands ==> t in p.notified)
      && forall u: TaskId :: u in p.spawning && u !in net.handed ==> p.spawning[u].sponsor != t
    case _ => true
  }

  /** A task is still running: its code cannot end before its hand-overs have ended. */
  ghost predicate StillHandingOver(net: Net, t: TaskId) {
    exists k: nat, u: TaskId :: k < |net.procs| && u in net.procs[k].spawning && u in net.handed && net.handed[u].task == t
  }

  ghost predicate CanMove(net: Net, m: Move) {
    match m
    case Act(k, step) =>
      && k < |net.procs| && !step.Other? && CanStep(net.procs[k], step)
      && forall t: TaskId :: t in ExecutedAfter(net.procs[k], step) && t !in net.procs[k].executed ==>
           !StillHandingOver(net, t)
    case HandOver(hand, k, a) =>
      && k < |net.procs| && hand.producer < |net.procs| && ValidAffinity(a, |net.procs[k].life.local|)
      && net.procs[hand.producer].terminal in net.procs[k].upstream
      && Own(net.procs[hand.producer], hand.task) && Running(net.procs[hand.producer], hand.task)
    case Environment(st) =>
      && |net.procs| > 0 && SR.CanStep(net.procs[0].sched, st)
      && forall k :: 0 <= k < |net.procs| ==> PoliteInNet(net, k, st)
  }

  /** The scheduler operation a move calls, if any. */
  ghost function CallOf(net: Net, m: Move): Option<SR.Step>
    requires CanMove(net, m)
  {
    match m
    case Act(k, step) => Calls(net.procs[k], step)
    case HandOver(_, _, a) => Some(SR.Create(a))
    case Environment(st) => Some(st)
  }

  /** What process task `k` sees of a move. */
  ghost function StepOf(net: Net, m: Move, k: nat): Option<Step>
    requires CanMove(net, m) && k < |net.procs|
  {
    if m.Act? && m.k == k then Some(m.step)
    else if m.HandOver? && m.k == k then Some(SpawnRun(net.procs[m.hand.producer].terminal, m.a))
    else if CallOf(net, m).Some? then Some(Other(CallOf(net, m).value))
    else None
  }

  ghost predicate AllStep(net: Net, m: Move)
    requires CanMove(net, m)
  {
    forall k: nat :: k < |net.procs| && StepOf(net, m, k).Some? ==>
      CanStep(net.procs[k], StepOf(net, m, k).value) && Safe(net.procs[k], StepOf(net, m, k).value)
  }

  ghost function ProcAfter(net: Net, m: Move, k: nat): State
    requires CanMove(net, m) && AllStep(net, m) && k < |net.procs|
  {
    if StepOf(net, m, k).Some? then Apply(net.procs[k], StepOf(net, m, k).value) else net.procs[k]
  }

  ghost function After(net: Net, m: Move): Net
    requires CanMove(net, m) && AllStep(net, m)
  {
    Net(seq(|net.procs|, k requires 0 <= k < |net.procs| => ProcAfter(net, m, k)),
      if m.HandOver? then net.handed[net.procs[m.k].sched.core.created := m.hand] else net.handed)
  }

  // ----- The invariant

  ghost predicate OneScheduler(net: Net) {
    forall j, k :: 0 <= j < |net.procs| && 0 <= k < |net.procs| ==> net.procs[j].sched == net.procs[k].sched
  }

  ghost predicate OwnTasks(net: Net) {
    forall j, k, t: TaskId ::
      0 <= j < |net.procs| && 0 <= k < |net.procs| && Own(net.procs[j], t) && Own(net.procs[k], t) ==> j == k
  }

  /** A command being handed over is sponsored by the terminal of a producer one of whose tasks is running. */
  ghost predicate HandedOver(net: Net, k: nat, u: TaskId)
    requires k < |net.procs|
  {
    u in net.procs[k].spawning && u in net.handed ==>
      && net.handed[u].producer < |net.procs|
      && net.procs[k].spawning[u].sponsor == net.procs[net.handed[u].producer].terminal
      && Own(net.procs[net.handed[u].producer], net.handed[u].task)
      && Running(net.procs[net.handed[u].producer], net.handed[u].task)
  }

  ghost predicate Hands(net: Net) {
    && (forall k: nat, u: TaskId :: k < |net.procs| ==> HandedOver(net, k, u))
    && (forall k: nat, u: TaskId :: k < |net.procs| && u in net.handed ==> u < net.procs[k].sched.core.created)
  }

  ghost predicate NetInv(net: Net) {
    (forall k :: 0 <= k < |net.procs| ==> Inv(net.procs[k])) && OneScheduler(net) && OwnTasks(net) && Hands(net)
  }

  // ----- Producers outlive their hand-overs

  /** While any task of a process task is running, its terminal is live; unless that task is the terminal
      itself, it has not been taken. */
  lemma TerminalOutlives(p: State, t: TaskId)
    requires Inv(p) && Own(p, t) && Running(p, t)
    ensures p.terminal in p.sched.core.vertices && p.terminal < p.sched.core.created
    ensures t == p.terminal || p.terminal !in p.sched.taken
  {
    hide SR.Inv, Limited, Logged, Ran, Finalizers;
    LiveFacts(p.sched, p.terminal);
    LiveFacts(p.sched, p.barrier);
    LiveFacts(p.sched, t);
    if t != p.terminal {
      TerminalWaits(p, t);
      UnreleasedFacts(p.sched, p.terminal);
    }
  }

  lemma TerminalWaits(p: State, t: TaskId)
    requires Inv(p) && Own(p, t) && Running(p, t) && t != p.terminal
    ensures p.terminal !in p.sched.released
  {
    hide SR.Inv, Limited, Logged;
    LiveFacts(p.sched, t);
    LiveFacts(p.sched, p.barrier);
    if t in p.commands && p.commands[t].FinalizerKind? {
      FinalizersBeforeTerminal(p, t);
    } else if t in p.commands {
      RunsBeforeBarrier(p, t);
    }
    if p.terminal in p.sched.released {
      ReleasedFacts(p.sched, p.terminal);
      ReleasedFacts(p.sched, p.barrier);
    }
  }

  /** So what the rest may do in the network is polite to every process task. */
  lemma EnvironmentIsPolite(net: Net, st: SR.Step, k: nat)
    requires NetInv(net) && CanMove(net, Environment(st)) && k < |net.procs|
    ensures Polite(net.procs[k], st)
  {
    hide Inv, OwnTasks;
    assert PoliteInNet(net, k, st);
    if st.EraseTask? {
      var p := net.procs[k];
      forall u: TaskId | u in p.spawning ensures p.spawning[u].sponsor != st.t {
        if u in net.handed {
          assert HandedOver(net, k, u);
          var i, t := net.handed[u].producer, net.handed[u].task;
          TerminalOutlives(net.procs[i], t);
          assert PoliteInNet(net, i, st);
        }
      }
    }
  }

  /** The operations a process task calls itself concern its own tasks only. */
  lemma CallsAreOwn(p: State, step: Step)
    requires Inv(p) && CanStep(p, step) && !step.Other? && Calls(p, step).Some?
    ensures !Calls(p, step).value.EraseTask?
    ensures Calls(p, step).value.Depend? ==> Own(p, Calls(p, step).value.s)
    ensures Calls(p, step).value.CountCommit? ==> Calls(p, step).value.t in p.commands
  {
    hide SR.Inv, Links, Ran, Finalizers, Logged, SR.CanStep;
    if step.Notify? {
      ParkedAreRequests(p.limit);
    }
  }

  lemma ForeignTask(net: Net, k: nat, j: nat, t: TaskId)
    requires OwnTasks(net) && j < |net.procs| && k < |net.procs| && j != k && Own(net.procs[k], t)
    ensures !Own(net.procs[j], t)
  {}

  lemma ActIsPolite(net: Net, k: nat, step: Step, j: nat)
    requires NetInv(net) && CanMove(net, Act(k, step)) && j < |net.procs| && j != k && Calls(net.procs[k], step).Some?
    ensures Polite(net.procs[j], Calls(net.procs[k], step).value)
  {
    var call := Calls(net.procs[k], step).value;
    assert Inv(net.procs[k]);
    CallsAreOwn(net.procs[k], step);
    if call.Depend? {
      ForeignTask(net, k, j, call.s);
    } else if call.CountCommit? {
      ForeignTask(net, k, j, call.t);
    }
    hide Inv, OneScheduler, OwnTasks, Hands, CanStep, Calls;
  }

  lemma ActAllowed(net: Net, i: nat, step: Step, k: nat)
    requires NetInv(net) && CanMove(net, Act(i, step)) && k < |net.procs| && k != i && Calls(net.procs[i], step).Some?
    ensures CanStep(net.procs[k], Other(Calls(net.procs[i], step).value))
  {
    hide Inv, SR.CanStep, SR.Safe, OwnTasks, Hands, Polite, Calls;
    assert Inv(net.procs[i]);
    StepIsSafe(net.procs[i], step);
    ActIsPolite(net, i, step, k);
    assert net.procs[i].sched == net.procs[k].sched;
  }

  lemma HandOverAllowed(net: Net, hand: Hand, i: nat, a: Affinity, k: nat)
    requires NetInv(net) && CanMove(net, HandOver(hand, i, a)) && k < |net.procs|
    ensures CanStep(net.procs[k], StepOf(net, HandOver(hand, i, a), k).value)
  {
    hide Inv, OwnTasks, Hands;
    assert Inv(net.procs[hand.producer]);
    TerminalOutlives(net.procs[hand.producer], hand.task);
    assert net.procs[hand.producer].sched == net.procs[k].sched;
    SameWorkers(net, i, k);
  }

  /** Every move is, for every process task, a step it can take. */
  lemma StepAllowed(net: Net, m: Move, k: nat)
    requires NetInv(net) && CanMove(net, m) && k < |net.procs| && StepOf(net, m, k).Some?
    ensures CanStep(net.procs[k], StepOf(net, m, k).value) && Safe(net.procs[k], StepOf(net, m, k).value)
  {
    hide Inv, SR.CanStep, OwnTasks, Hands, Polite, Calls;
    match m {
      case Act(i, step) =>
        if i != k {
          ActAllowed(net, i, step, k);
        }
      case HandOver(hand, i, a) => HandOverAllowed(net, hand, i, a, k);
      case Environment(st) =>
        EnvironmentIsPolite(net, st, k);
        assert net.procs[0].sched == net.procs[k].sched;
    }
    assert Inv(net.procs[k]);
    StepIsSafe(net.procs[k], StepOf(net, m, k).value);
  }

  lemma SameWorkers(net: Net, j: nat, k: nat)
    requires NetInv(net) && j < |net.procs| && k < |net.procs|
    ensures |net.procs[j].life.local| == |net.procs[k].sched.core.nodeOf|
  {
    assert Static(net.procs[j]);
    hide Static, SR.Inv;
  }

  // ----- What every move keeps

  lemma AllMay(net: Net, m: Move)
    requires NetInv(net) && CanMove(net, m)
    ensures AllStep(net, m)
  {
    hide NetInv, CanMove, CanStep, Safe, StepOf;
    forall k: nat | k < |net.procs| && StepOf(net, m, k).Some?
      ensures CanStep(net.procs[k], StepOf(net, m, k).value) && Safe(net.procs[k], StepOf(net, m, k).value)
    {
      StepAllowed(net, m, k);
    }
  }

  lemma SchedAfterMove(net: Net, m: Move, k: nat)
    requires NetInv(net) && CanMove(net, m) && AllStep(net, m) && k < |net.procs|
    ensures CallOf(net, m).Some? ==>
      SR.Enabled(net.procs[k].sched, CallOf(net, m).value) &&
      ProcAfter(net, m, k).sched == SR.Apply(net.procs[k].sched, CallOf(net, m).value)
    ensures CallOf(net, m).None? ==> ProcAfter(net, m, k).sched == net.procs[k].sched
  {
    hide NetInv, CanStep, SR.Enabled, SR.Apply, LifeAfter, LimitAfter, CommandsAfter, SpawningAfter, ExecutedAfter;
    var step := StepOf(net, m, k);
    assert step.Some? ==> CanStep(net.procs[k], step.value) && Safe(net.procs[k], step.value);
    assert step.Some? ==> Calls(net.procs[k], step.value) == CallOf(net, m);
  }

  lemma InvAfterMove(net: Net, m: Move, k: nat)
    requires NetInv(net) && CanMove(net, m) && AllStep(net, m) && k < |net.procs|
    ensures Inv(ProcAfter(net, m, k))
  {
    hide Inv, CanStep, CanMove, Safe, Apply, OneScheduler, OwnTasks, Hands, StepOf;
    if StepOf(net, m, k).Some? {
      InvKept(net.procs[k], StepOf(net, m, k).value);
    }
  }

  lemma OneSchedulerKept(net: Net, m: Move)
    requires NetInv(net) && CanMove(net, m) && AllStep(net, m)
    ensures OneScheduler(After(net, m))
  {
    hide NetInv, CanMove, AllStep, SR.Apply, SR.Enabled, ProcAfter, CallOf;
    forall j, k | 0 <= j < |net.procs| && 0 <= k < |net.procs|
      ensures ProcAfter(net, m, j).sched == ProcAfter(net, m, k).sched
    {
      assert net.procs[j].sched == net.procs[k].sched by { SameSched(net, j, k); }
      SchedAfterMove(net, m, j);
      SchedAfterMove(net, m, k);
    }
  }

  lemma SameSched(net: Net, j: nat, k: nat)
    requires NetInv(net) && j < |net.procs| && k < |net.procs|
    ensures net.procs[j].sched == net.procs[k].sched
  {
    hide Inv;
  }

  /** A process task gains at most the task created by the move, and only if the move adds a command to it. */
  ghost predicate Gains(net: Net, m: Move, k: nat)
    requires CanMove(net, m) && k < |net.procs|
  {
    && (m.Act? || m.HandOver?) && m.k == k
    && StepOf(net, m, k).Some? && AddsCommand(net.procs[k], StepOf(net, m, k).value)
  }

  lemma OwnAfterStep(p: State, step: Step, t: TaskId)
    requires Static(p) && CanStep(p, step) && Safe(p, step)
    ensures Own(Apply(p, step), t) <==> Own(p, t) || (AddsCommand(p, step) && t == p.sched.core.created)
    ensures Own(p, t) ==> t < p.sched.core.created
  {
    hide SchedAfter, LifeAfter, LimitAfter, SpawningAfter, ExecutedAfter, SR.Inv, SR.CanStep, SR.Enabled, Polite, Safe;
  }

  lemma OwnAfter(net: Net, m: Move, k: nat, t: TaskId)
    requires NetInv(net) && CanMove(net, m) && AllStep(net, m) && k < |net.procs|
    ensures Own(ProcAfter(net, m, k), t) <==>
      Own(net.procs[k], t) || (Gains(net, m, k) && t == net.procs[k].sched.core.created)
    ensures Own(net.procs[k], t) ==> t < net.procs[k].sched.core.created
  {
    hide CanStep, Safe, Apply, Own, OneScheduler, OwnTasks, Hands, Static, Spawns, Links, Limited, Ran, Finalizers, Logged;
    assert Inv(net.procs[k]);
    if StepOf(net, m, k).Some? {
      OwnAfterStep(net.procs[k], StepOf(net, m, k).value, t);
    } else {
      OwnBelow(net.procs[k], t);
    }
  }

  lemma OwnBelow(p: State, t: TaskId)
    requires Static(p)
    ensures Own(p, t) ==> t < p.sched.core.created
  {
    hide SR.Inv;
  }

  lemma OwnTasksKept(net: Net, m: Move)
    requires NetInv(net) && CanMove(net, m) && AllStep(net, m)
    ensures OwnTasks(After(net, m))
  {
    hide NetInv, CanMove, AllStep, ProcAfter, Own;
    forall j, k, t: TaskId |
      0 <= j < |net.procs| && 0 <= k < |net.procs| && Own(ProcAfter(net, m, j), t) && Own(ProcAfter(net, m, k), t)
      ensures j == k
    {
      OwnAfter(net, m, j, t);
      OwnAfter(net, m, k, t);
      SameSched(net, j, k);
      if j != k && Own(net.procs[k], t) {
        Disjoint(net, k, j, t);
      }
    }
  }

  lemma Disjoint(net: Net, k: nat, j: nat, t: TaskId)
    requires NetInv(net) && j < |net.procs| && k < |net.procs| && j != k && Own(net.procs[k], t)
    ensures !Own(net.procs[j], t)
  {
    hide Inv, Own;
  }

  // ----- Hand-overs

  /** What a running task needs to stay running. */
  lemma StillRunning(net: Net, m: Move, i: nat, t: TaskId)
    requires NetInv(net) && CanMove(net, m) && AllStep(net, m) && i < |net.procs|
    requires Own(net.procs[i], t) && Running(net.procs[i], t) && StillHandingOver(net, t)
    ensures Running(ProcAfter(net, m, i), t)
  {
    StaysTaken(net, m, i, t);
    NotExecuted(net, m, i, t);
    hide NetInv, CanMove, AllStep, ProcAfter;
  }

  lemma NotExecuted(net: Net, m: Move, i: nat, t: TaskId)
    requires CanMove(net, m) && AllStep(net, m) && i < |net.procs|
    requires t !in net.procs[i].executed && StillHandingOver(net, t)
    ensures t !in ProcAfter(net, m, i).executed
  {
    hide CanStep, Safe, SchedAfter, LifeAfter, LimitAfter, CommandsAfter, SpawningAfter, StillHandingOver, SR.CanStep;
    hide CallOf, PoliteInNet;
  }

  /** Only completing a task takes it away, and a running task cannot be completed. */
  lemma StaysTaken(net: Net, m: Move, i: nat, t: TaskId)
    requires NetInv(net) && CanMove(net, m) && AllStep(net, m) && i < |net.procs|
    requires Own(net.procs[i], t) && Running(net.procs[i], t)
    ensures t in ProcAfter(net, m, i).sched.taken
  {
    SchedAfterMove(net, m, i);
    if CallOf(net, m).Some? {
      NotCompleted(net, m, i, t);
      VertexFacts(net.procs[i].sched, CallOf(net, m).value, t) by { SchedOk(net, i); }
    }
    hide NetInv, AllStep, CanMove, CallOf, ProcAfter, SR.Enabled;
  }

  lemma SchedOk(net: Net, i: nat)
    requires NetInv(net) && i < |net.procs|
    ensures Inv(net.procs[i]) && SR.Inv(net.procs[i].sched)
  {
    hide SR.Inv;
    assert Inv(net.procs[i]);
  }

  lemma NotCompleted(net: Net, m: Move, i: nat, t: TaskId)
    requires NetInv(net) && CanMove(net, m) && i < |net.procs| && CallOf(net, m).Some?
    requires Own(net.procs[i], t) && Running(net.procs[i], t)
    ensures CallOf(net, m).value != SR.EraseTask(t)
  {
    hide NetInv, Inv, CanStep, Calls, SR.CanStep;
    SchedOk(net, i);
    match m {
      case Act(k, step) =>
        SchedOk(net, k);
        CallsAreOwn(net.procs[k], step);
      case Environment(st) =>
        assert PoliteInNet(net, i, st);
        RunningIsNotCompleted(net, i, t, st);
      case _ =>
    }
  }

  lemma RunningIsNotCompleted(net: Net, i: nat, t: TaskId, st: SR.Step)
    requires i < |net.procs| && Inv(net.procs[i]) && PoliteInNet(net, i, st)
    requires Own(net.procs[i], t) && Running(net.procs[i], t)
    ensures st != SR.EraseTask(t)
  {
    hide Inv;
    NotifiedHaveRun(net.procs[i], t);
  }

  lemma NotifiedHaveRun(p: State, t: TaskId)
    requires Inv(p)
    ensures t in p.notified ==> t in p.executed
  {
    hide Static, Spawns, Links, Limited, Finalizers, Logged;
  }

  lemma HandsKept(net: Net, m: Move, k: nat, u: TaskId)
    requires NetInv(net) && CanMove(net, m) && AllStep(net, m) && k < |net.procs|
    ensures HandedOver(After(net, m), k, u)
  {
    hide NetInv, CanMove, AllStep, ProcAfter, Running, Own;
    var net' := After(net, m);
    if u in net'.procs[k].spawning && u in net'.handed {
      if u in net.handed {
        OldHand(net, m, k, u);
      } else {
        NewHand(net, m, k, u);
      }
      ConstantTerminal(net, m, net'.handed[u].producer);
    }
  }

  lemma ConstantTerminal(net: Net, m: Move, i: nat)
    requires CanMove(net, m) && AllStep(net, m) && i < |net.procs|
    ensures ProcAfter(net, m, i).terminal == net.procs[i].terminal
  {
    hide CanMove, CanStep, Safe, SchedAfter, LifeAfter, LimitAfter, CommandsAfter, SpawningAfter, ExecutedAfter, StepOf;
  }

  /** The commands being added to a process task after a move. */
  lemma SpawningAfterMove(net: Net, m: Move, k: nat, u: TaskId)
    requires NetInv(net) && CanMove(net, m) && AllStep(net, m) && k < |net.procs|
    requires u in ProcAfter(net, m, k).spawning
    ensures u in net.procs[k].spawning || (Gains(net, m, k) && u == net.procs[k].sched.core.created)
    ensures u in net.procs[k].spawning ==>
      u < net.procs[k].sched.core.created && ProcAfter(net, m, k).spawning[u].sponsor == net.procs[k].spawning[u].sponsor
  {
    hide CanStep, Safe, SchedAfter, LifeAfter, LimitAfter, CommandsAfter, SpawningAfter, ExecutedAfter, SR.Inv;
    hide OneScheduler, OwnTasks, Hands, Links, Limited, Ran, Finalizers, Logged;
    assert Inv(net.procs[k]);
    if StepOf(net, m, k).Some? {
      SpawningFacts(net.procs[k], StepOf(net, m, k).value, u);
    }
  }

  lemma OldHand(net: Net, m: Move, k: nat, u: TaskId)
    requires NetInv(net) && CanMove(net, m) && AllStep(net, m) && k < |net.procs|
    requires u in ProcAfter(net, m, k).spawning && u in net.handed
    ensures u in net.procs[k].spawning && HandedOver(net, k, u) && u in After(net, m).handed
    ensures After(net, m).handed[u] == net.handed[u]
    ensures ProcAfter(net, m, k).spawning[u].sponsor == net.procs[k].spawning[u].sponsor
    ensures Own(ProcAfter(net, m, net.handed[u].producer), net.handed[u].task)
    ensures Running(ProcAfter(net, m, net.handed[u].producer), net.handed[u].task)
  {
    hide CanMove, AllStep, ProcAfter, Running, Own, Inv, OneScheduler, OwnTasks;
    SpawningAfterMove(net, m, k, u);
    assert HandedOver(net, k, u);
    assert u in net.procs[k].spawning;
    var i, t := net.handed[u].producer, net.handed[u].task;
    SameHand(net, m, u);
    assert StillHandingOver(net, t);
    StillRunning(net, m, i, t);
    OwnAfter(net, m, i, t);
  }

  lemma SameHand(net: Net, m: Move, u: TaskId)
    requires NetInv(net) && CanMove(net, m) && AllStep(net, m) && u in net.handed
    ensures u in After(net, m).handed && After(net, m).handed[u] == net.handed[u]
  {
    hide Inv, AllStep, OneScheduler, OwnTasks, HandedOver;
    if m.HandOver? {
      assert u < net.procs[m.k].sched.core.created;
    }
  }

  lemma NewHand(net: Net, m: Move, k: nat, u: TaskId)
    requires NetInv(net) && CanMove(net, m) && AllStep(net, m) && k < |net.procs|
    requires u in ProcAfter(net, m, k).spawning && u in After(net, m).handed && u !in net.handed
    ensures m.HandOver? && m.hand.producer < |net.procs| && After(net, m).handed[u] == m.hand
    ensures ProcAfter(net, m, k).spawning[u].sponsor == net.procs[m.hand.producer].terminal
    ensures Own(ProcAfter(net, m, m.hand.producer), m.hand.task) && Running(ProcAfter(net, m, m.hand.producer), m.hand.task)
  {
    hide NetInv, AllStep, ProcAfter, Own;
    SpawningAfterMove(net, m, k, u);
    SameSched(net, k, m.k);
    NewSpawn(net, m, k);
    StaysTaken(net, m, m.hand.producer, m.hand.task);
    OwnAfter(net, m, m.hand.producer, m.hand.task);
    NothingExecuted(net, m, m.hand.producer);
  }

  lemma NothingExecuted(net: Net, m: Move, i: nat)
    requires CanMove(net, m) && AllStep(net, m) && i < |net.procs| && m.HandOver?
    ensures ProcAfter(net, m, i).executed == net.procs[i].executed
  {
    hide CanStep, Safe, SchedAfter, LifeAfter, LimitAfter, CommandsAfter, SpawningAfter;
  }

  /** A command handed over is sponsored by the producer's terminal. */
  lemma {:induction false} NewSpawn(net: Net, m: Move, k: nat)
    requires NetInv(net) && CanMove(net, m) && AllStep(net, m) && k < |net.procs| && m.HandOver?
    ensures Gains(net, m, k) ==>
      var p := net.procs[k];
      && p.sched.core.created in ProcAfter(net, m, k).spawning
      && ProcAfter(net, m, k).spawning[p.sched.core.created].sponsor == net.procs[m.hand.producer].terminal
  {
    hide CanStep, Safe, SchedAfter, LifeAfter, LimitAfter, CommandsAfter, ExecutedAfter;
    hide NetInv;
  }

  lemma HandedBelow(net: Net, m: Move, k: nat, u: TaskId)
    requires NetInv(net) && CanMove(net, m) && AllStep(net, m) && k < |net.procs| && u in After(net, m).handed
    ensures u < ProcAfter(net, m, k).sched.core.created
  {
    hide CanMove, AllStep, ProcAfter, Inv, OwnTasks, CallOf;
    SchedAfterMove(net, m, k);
    SchedOk(net, k);
    if CallOf(net, m).Some? {
      SchedFacts(net.procs[k].sched, CallOf(net, m).value);
    }
    if m.HandOver? {
      HandOverCreates(net, m);
      SameSched(net, k, m.k);
    }
    hide SR.Apply, SR.Enabled, SR.Inv;
  }

  lemma HandOverCreates(net: Net, m: Move)
    requires CanMove(net, m) && m.HandOver?
    ensures CallOf(net, m) == Some(SR.Create(m.a)) && m.k < |net.procs|
  {}

  lemma NetInvKept(net: Net, m: Move)
    requires NetInv(net) && CanMove(net, m)
    ensures AllStep(net, m) && NetInv(After(net, m))
  {
    hide CanMove, AllStep, ProcAfter, Inv, OwnTasks, OneScheduler, HandedOver;
    AllMay(net, m);
    OneSchedulerKept(net, m);
    OwnTasksKept(net, m);
    forall k: nat | k < |net.procs| ensures Inv(ProcAfter(net, m, k)) {
      InvAfterMove(net, m, k);
    }
    forall k: nat, u: TaskId | k < |net.procs| ensures HandedOver(After(net, m), k, u) {
      HandsKept(net, m, k, u);
    }
    forall k: nat, u: TaskId | k < |net.procs| && u in After(net, m).handed
      ensures u < ProcAfter(net, m, k).sched.core.created
    {
      HandedBelow(net, m, k, u);
    }
  }

  // ----- Runs

  /** All process tasks have just been created, and depend on the producers among them. */
  ghost predicate NetCreated(net: Net) {
    (forall k :: 0 <= k < |net.procs| ==> Created(net.procs[k])) && OneScheduler(net) && OwnTasks(net) && net.handed == map[]
  }

  ghost predicate NetNext(net: Net, net': Net) {
    exists m :: CanMove(net, m) && AllStep(net, m) && net' == After(net, m)
  }

  ghost predicate NetRun(run: seq<Net>) {
    && |run| > 0 && NetCreated(run[0])
    && forall i :: 0 <= i < |run| - 1 ==> NetNext(run[i], run[i + 1])
  }

  lemma NetInvAtCreation(net: Net)
    requires NetCreated(net)
    ensures NetInv(net)
  {
    hide Created, Inv;
    forall k | 0 <= k < |net.procs| ensures Inv(net.procs[k]) {
      InvAtCreation(net.procs[k]);
    }
  }

  lemma {:induction false} NetRunKeepsInv(run: seq<Net>, i: nat)
    requires NetRun(run) && i < |run|
    ensures NetInv(run[i])
  {
    hide NetInv, CanMove, AllStep, After, NetCreated;
    if i == 0 {
      NetInvAtCreation(run[0]);
    } else {
      NetRunKeepsInv(run, i - 1);
      assert NetNext(run[i - 1], run[i]);
      var m :| CanMove(run[i - 1], m) && AllStep(run[i - 1], m) && run[i] == After(run[i - 1], m);
      NetInvKept(run[i - 1], m);
    }
  }

  /** In every run of a network each processor is called in the promised order, every move is a step that each
      process task allows and that respects the scheduler's rules, and a producer's terminal is live as long
      as one of its tasks hands over. */
  lemma NetworkCalledInOrder(run: seq<Net>, i: nat, k: nat)
    requires NetRun(run) && i < |run| && k < |run[i].procs|
    ensures WellOrdered(run[i].procs[k].life.log)
    ensures forall t: TaskId :: t in run[i].procs[k].commands && run[i].procs[k].commands[t].RunKind? ==>
      (t in run[i].procs[k].executed <==> exists w: nat :: RunCall(w, t) in run[i].procs[k].life.log)
    ensures forall m :: CanMove(run[i], m) ==> AllStep(run[i], m)
    ensures forall t: TaskId :: Own(run[i].procs[k], t) && Running(run[i].procs[k], t) ==>
      && run[i].procs[k].terminal in run[i].procs[k].sched.core.vertices
      && !CanMove(run[i], Environment(SR.EraseTask(run[i].procs[k].terminal)))
  {
    hide NetInv, CanMove, AllStep, Own, Running, Inv, WellOrdered;
    var net := run[i];
    NetRunKeepsInv(run, i);
    SchedOk(net, k);
    LogOk(net.procs[k]);
    forall m | CanMove(net, m) ensures AllStep(net, m) {
      AllMay(net, m);
    }
    forall t: TaskId | Own(net.procs[k], t) && Running(net.procs[k], t)
      ensures net.procs[k].terminal in net.procs[k].sched.core.vertices
      ensures !CanMove(net, Environment(SR.EraseTask(net.procs[k].terminal)))
    {
      TerminalOutlives(net.procs[k], t);
      TerminalStays(net, k, t);
    }
  }

  lemma TerminalStays(net: Net, k: nat, t: TaskId)
    requires NetInv(net) && k < |net.procs| && Own(net.procs[k], t) && Running(net.procs[k], t)
    ensures !CanMove(net, Environment(SR.EraseTask(net.procs[k].terminal)))
  {
    hide Inv, OwnTasks, Hands;
    var st := SR.EraseTask(net.procs[k].terminal);
    TerminalOutlives(net.procs[k], t) by { SchedOk(net, k); }
    assert net.procs[0].sched == net.procs[k].sched;
    assert CanMove(net, Environment(st)) ==> PoliteInNet(net, k, st);
  }

  lemma LogOk(p: State)
    requires Inv(p)
    ensures WellOrdered(p.life.log)
    ensures forall t: TaskId :: t in p.commands && p.commands[t].RunKind? ==>
      (t in p.executed <==> exists w: nat :: RunCall(w, t) in p.life.log)
  {
    hide Static, Spawns, Links, Limited, Ran, Finalizers, WellOrdered;
  }

  // ----- Where runs start

  /** The same process tasks on a scheduler in a later state. */
  ghost function OnScheduler(procs: seq<State>, s: SR.State): (r: seq<State>)
    ensures |r| == |procs| && forall k :: 0 <= k < |r| ==> r[k] == procs[k].(sched := s)
  {
    seq(|procs|, k requires 0 <= k < |procs| => procs[k].(sched := s))
  }

  ghost predicate Extends(s: SR.State, s': SR.State) {
    && SR.Inv(s') && s'.core.nodeOf == s.core.nodeOf && s.deps <= s'.deps
    && (forall t: TaskId :: t in s.tokens ==> t in s'.tokens)
  }

  lemma StaysCreated(p: State, s': SR.State)
    requires Created(p) && Extends(p.sched, s')
    ensures Created(p.(sched := s'))
  {
    hide SR.Inv;
  }

  /** Process tasks created on `s`, whose own tasks come one after the other. */
  ghost predicate NewProcs(procs: seq<State>, s: SR.State) {
    && (forall k :: 0 <= k < |procs| ==> Created(procs[k]) && procs[k].sched == s && procs[k].commands == map[])
    && (forall k, t: TaskId :: 0 <= k < |procs| && Fixed(procs[k], t) ==> t < s.core.created)
    && (forall j, k, t: TaskId ::
          0 <= j < |procs| && 0 <= k < |procs| && Fixed(procs[j], t) && Fixed(procs[k], t) ==> j == k)
  }

  /** Logical tasks are created one after the other. */
  lemma {:induction false} CreateAll(s: SR.State, n: nat, max: nat) returns (procs: seq<State>, s': SR.State)
    requires SR.Inv(s)
    ensures |procs| == n && SR.Inv(s') && NewProcs(procs, s')
    ensures forall k :: 0 <= k < n ==> procs[k].upstream == {}
  {
    hide SR.Inv, Created, Fixed;
    if n == 0 {
      procs, s' := [], s;
    } else {
      var front, before := CreateAll(s, n - 1, max);
      var p := CreatePhysicalTasks(before, max);
      s' := p.sched;
      CreatedFacts(p);
      procs := OnScheduler(front, s') + [p];
      forall k | 0 <= k < n ensures Created(procs[k]) {
        if k < n - 1 {
          StaysCreated(front[k], s');
        }
      }
      forall k, t: TaskId | 0 <= k < n ensures Fixed(procs[k], t) ==> t < s'.core.created
        ensures Fixed(procs[k], t) ==> (t < before.core.created <==> k < n - 1)
      {
        FixedOf(procs[k], if k < n - 1 then front[k] else p, t);
        assert k < n - 1 && Fixed(front[k], t) ==> t < before.core.created;
      }
      forall j, k, t: TaskId | 0 <= j < n && 0 <= k < n && Fixed(procs[j], t) && Fixed(procs[k], t) ensures j == k {
        if j < n - 1 && k < n - 1 {
          FixedOf(procs[j], front[j], t);
          FixedOf(procs[k], front[k], t);
        }
      }
    }
  }

  lemma CreatedFacts(p: State)
    requires Created(p)
    ensures SR.Inv(p.sched) && p.commands == map[]
  {
    hide SR.Inv;
  }

  lemma FixedOf(p: State, q: State, t: TaskId)
    requires p.entry == q.entry && p.barrier == q.barrier && p.terminal == q.terminal
    ensures Fixed(p, t) == Fixed(q, t)
    ensures q.barrier == q.entry + 1 && q.terminal == q.entry + 2 && Fixed(q, t) ==> q.entry <= t < q.entry + 3
  {}

  /** A dependency of the consumer's barrier on the producer's terminal. */
  ghost function Linked(procs: seq<State>, s: SR.State, i: nat, j: nat): (r: seq<State>)
    requires i < |procs| && j < |procs|
    ensures |r| == |procs|
    ensures forall k :: 0 <= k < |r| ==>
      r[k] == procs[k].(sched := s, upstream := procs[k].upstream + if k == j then {procs[i].terminal} else {})
  {
    seq(|procs|, k requires 0 <= k < |procs| =>
      procs[k].(sched := s, upstream := procs[k].upstream + if k == j then {procs[i].terminal} else {}))
  }

  lemma AddEdge(procs: seq<State>, s: SR.State, i: nat, j: nat) returns (s': SR.State)
    requires SR.Inv(s) && NewProcs(procs, s) && i < |procs| && j < |procs| && i != j
    ensures SR.Inv(s') && NewProcs(Linked(procs, s', i, j), s')
  {
    hide SR.Inv, Created, SR.Apply, SR.Enabled, Fixed;
    var x, t := procs[i].terminal, procs[j].barrier;
    FixedTokens(procs[i]);
    FixedTokens(procs[j]);
    DependFacts(s, x, t);
    s' := SR.Apply(s, SR.Depend(x, t));
    var linked := Linked(procs, s', i, j);
    forall k | 0 <= k < |procs| ensures Created(linked[k]) {
      assert Created(procs[k]);
      StaysCreated(procs[k], s');
      if k == j {
        assert !Fixed(procs[k], x);
        SameFixed(procs[k].(sched := s'), procs[k], x);
        MoreUpstream(procs[k].(sched := s'), x);
      } else {
        assert linked[k] == procs[k].(sched := s');
      }
    }
    forall k, u: TaskId | 0 <= k < |procs| ensures Fixed(linked[k], u) == Fixed(procs[k], u) {
      SameFixed(linked[k], procs[k], u);
    }
  }

  lemma FixedTokens(p: State)
    requires Created(p)
    ensures p.terminal in p.sched.tokens && p.barrier in p.sched.tokens
    ensures Fixed(p, p.terminal)
  {
    hide SR.Inv;
  }

  lemma SameFixed(p: State, q: State, t: TaskId)
    requires p.entry == q.entry && p.barrier == q.barrier && p.terminal == q.terminal
    ensures Fixed(p, t) == Fixed(q, t)
  {}

  lemma MoreUpstream(p: State, u: TaskId)
    requires Created(p) && !Fixed(p, u) && (u, p.barrier) in p.sched.deps
    ensures Created(p.(upstream := p.upstream + {u}))
  {
    hide SR.Inv;
  }

  /** The producers of each process task are those the edges say. */
  ghost predicate LinkedAs(procs: seq<State>, edges: seq<(nat, nat)>) {
    forall k, u: TaskId :: 0 <= k < |procs| ==>
      (u in procs[k].upstream <==> exists e :: e in edges && e.1 == k && e.0 < |procs| && u == procs[e.0].terminal)
  }

  lemma {:induction false} AddEdges(procs: seq<State>, s: SR.State, edges: seq<(nat, nat)>)
    returns (linked: seq<State>, s': SR.State)
    requires SR.Inv(s) && NewProcs(procs, s) && forall k :: 0 <= k < |procs| ==> procs[k].upstream == {}
    requires forall e :: e in edges ==> e.0 < |procs| && e.1 < |procs| && e.0 != e.1
    ensures SR.Inv(s') && |linked| == |procs| && NewProcs(linked, s') && LinkedAs(linked, edges)
  {
    hide SR.Inv, NewProcs;
    if |edges| == 0 {
      linked, s' := procs, s;
    } else {
      var rest, last := edges[..|edges| - 1], edges[|edges| - 1];
      assert edges == rest + [last];
      assert last in edges;
      var front, before := AddEdges(procs, s, rest);
      s' := AddEdge(front, before, last.0, last.1);
      linked := Linked(front, s', last.0, last.1);
      forall k, u: TaskId | 0 <= k < |procs|
        ensures u in linked[k].upstream <==>
          exists e :: e in edges && e.1 == k && e.0 < |procs| && u == linked[e.0].terminal
      {
        OneMoreEdge(front, linked, rest, last, k, u);
      }
    }
  }

  lemma OneMoreEdge(front: seq<State>, linked: seq<State>, rest: seq<(nat, nat)>, last: (nat, nat), k: nat, u: TaskId)
    requires |linked| == |front| && k < |front| && last.0 < |front| && LinkedAs(front, rest)
    requires forall j :: 0 <= j < |front| ==> linked[j].terminal == front[j].terminal
    requires linked[k].upstream == front[k].upstream + if k == last.1 then {front[last.0].terminal} else {}
    ensures u in linked[k].upstream <==>
      exists e :: e in rest + [last] && e.1 == k && e.0 < |front| && u == linked[e.0].terminal
  {
    if u in front[k].upstream {
      var e :| e in rest && e.1 == k && e.0 < |front| && u == front[e.0].terminal;
      assert e in rest + [last];
    } else if u in linked[k].upstream {
      assert last in rest + [last];
    }
  }

  /** Creating a graph of process tasks: three tasks for each, and for every edge a dependency of the consumer's
      barrier on the producer's terminal. It is a proper start, with the producers upstream. */
  lemma CreateNetwork(s: SR.State, n: nat, max: nat, edges: seq<(nat, nat)>) returns (net: Net)
    requires SR.Inv(s) && forall e :: e in edges ==> e.0 < n && e.1 < n && e.0 != e.1
    ensures NetCreated(net) && |net.procs| == n && LinkedAs(net.procs, edges)
  {
    hide SR.Inv, Created, LinkedAs, Fixed;
    var procs, s1 := CreateAll(s, n, max);
    var linked, s2 := AddEdges(procs, s1, edges);
    net := Net(linked, map[]);
    forall j, k, t: TaskId | 0 <= j < n && 0 <= k < n && Own(linked[j], t) && Own(linked[k], t) ensures j == k {
      assert t !in linked[j].commands && t !in linked[k].commands;
    }
  }
}
