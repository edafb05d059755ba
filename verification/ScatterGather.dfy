/** Waiting for one fragment per scatter-gather port before a partition is processed. */
module ScatterGather {
  import opened Options
  import opened Ports

  /** A reference to a fragment. */
  type Fragment = nat

  /** `pool[q][port]` is the fragment of partition `q` that has arrived at `port`; `waiting[q]` counts the
      arrivals still to come. A pool that has been handed to a run is left empty. */
  datatype Gathering = Gathering(pool: seq<seq<Option<Fragment>>>, waiting: seq<int>)

  /** The fragments the run of a partition starts with. */
  datatype Launch = Launch(partition: nat, inputs: seq<Option<Fragment>>)

  function CountPorts(ports: seq<Movement>): nat {
    if |ports| == 0 then 0
    else CountPorts(ports[..|ports| - 1]) + if ports[|ports| - 1].ScatterGather? then 1 else 0
  }

  function Initial(ports: seq<Movement>, partitions: nat): Gathering {
    Gathering(seq(partitions, _ => seq(|ports|, _ => None)), seq(partitions, _ => CountPorts(ports)))
  }

  // ----- The two atomic parts of an arrival

  ghost predicate CanPlace(g: Gathering, q: nat, port: nat) {
    q < |g.pool| && q < |g.waiting| && port < |g.pool[q]|
  }

  function Place(g: Gathering, q: nat, port: nat, f: Fragment): Gathering
    requires CanPlace(g, q, port)
  {
    g.(pool := g.pool[q := g.pool[q][port := Some(f)]])
  }

  function CountDown(g: Gathering, q: nat): Gathering
    requires q < |g.pool| && q < |g.waiting|
  {
    if g.waiting[q] == 1 then Gathering(g.pool[q := []], g.waiting[q := 0])
    else g.(waiting := g.waiting[q := g.waiting[q] - 1])
  }

  function Launched(g: Gathering, q: nat): Option<Launch>
    requires q < |g.pool| && q < |g.waiting|
  {
    if g.waiting[q] == 1 then Some(Launch(q, g.pool[q])) else None
  }

  class ScatterGatherTask {
    var pool: seq<seq<Option<Fragment>>>
    var waiting: seq<int>

    function State(): Gathering
      reads this
    {
      Gathering(pool, waiting)
    }

    constructor (ports: seq<Movement>, partitions: nat)
      ensures State() == Initial(ports, partitions)
    {
      var count := 0;
      for i := 0 to |ports|
        invariant count == CountPorts(ports[..i])
      {
        assert ports[..i + 1][..i] == ports[..i];
        if ports[i] == ScatterGather {
          count := count + 1;
        }
      }
      assert ports[..|ports|] == ports;
      pool := seq(partitions, _ => seq(|ports|, _ => None));
      waiting := seq(partitions, _ => count);
    }

    /** Returns the run to start, if this was the last fragment of its partition. */
    method ReceiveNonBroadcastFragment(port: nat, partition: nat, f: Fragment) returns (launch: Option<Launch>)
      requires CanPlace(State(), partition, port)
      modifies this
      ensures State() == CountDown(Place(old(State()), partition, port, f), partition)
      ensures launch == Launched(Place(old(State()), partition, port, f), partition)
    {
      pool := pool[partition := pool[partition][port := Some(f)]];
      waiting := waiting[partition := waiting[partition] - 1];
      launch := None;
      if waiting[partition] == 0 {
        launch := Some(Launch(partition, pool[partition]));
        pool := pool[partition := []];
      }
    }
  }

  // ----- Concurrent arrivals

  /** `stored` are the fragments written into the pool, `counted` those whose countdown has happened. */
  datatype State = State(g: Gathering, stored: map<(nat, nat), Fragment>, counted: set<(nat, nat)>, launches: seq<Launch>)

  datatype Step = Store(q: nat, port: nat, f: Fragment) | Count(q: nat, port: nat)

  /** Producers deliver one fragment per partition and scatter-gather port, and count it after storing it. */
  ghost predicate CanStep(s: State, ports: seq<Movement>, partitions: nat, step: Step) {
    match step
    case Store(q, port, f) =>
      q < partitions && port < |ports| && ports[port].ScatterGather? && (q, port) !in s.stored
    case Count(q, port) => (q, port) in s.stored && (q, port) !in s.counted
  }

  /** The accesses are within bounds. */
  ghost predicate Safe(s: State, step: Step) {
    match step
    case Store(q, port, f) => CanPlace(s.g, q, port)
    case Count(q, _) => q < |s.g.pool| && q < |s.g.waiting|
  }

  ghost function Apply(s: State, step: Step): State
    requires Safe(s, step)
  {
    match step
    case Store(q, port, f) => s.(g := Place(s.g, q, port, f), stored := s.stored[(q, port) := f])
    case Count(q, port) =>
      s.(g := CountDown(s.g, q), counted := s.counted + {(q, port)},
         launches := s.launches + if Launched(s.g, q).Some? then [Launched(s.g, q).value] else [])
  }

  /** How many scatter-gather ports below `n` have not been counted. */
  ghost function Uncounted(s: State, ports: seq<Movement>, q: nat, n: nat): nat
    requires n <= |ports|
  {
    if n == 0 then 0
    else Uncounted(s, ports, q, n - 1) + if ports[n - 1].ScatterGather? && (q, n - 1) !in s.counted then 1 else 0
  }

  /** What the pool of a partition that is still waiting holds. */
  ghost function Expected(s: State, ports: seq<Movement>, q: nat): (inputs: seq<Option<Fragment>>)
    ensures |inputs| == |ports|
    ensures forall port: nat :: port < |ports| ==>
      inputs[port] == if (q, port) in s.stored then Some(s.stored[(q, port)]) else None
  {
    seq(|ports|, port requires 0 <= port => if (q, port) in s.stored then Some(s.stored[(q, port)]) else None)
  }

  ghost predicate IsLaunched(s: State, q: nat) {
    exists i :: 0 <= i < |s.launches| && s.launches[i].partition == q
  }

  ghost predicate Inv(s: State, ports: seq<Movement>, partitions: nat) {
    && |s.g.pool| == |s.g.waiting| == partitions
    && (forall q: nat, port: nat :: (q, port) in s.stored ==> q < partitions && port < |ports| && ports[port].ScatterGather?)
    && (forall q: nat, port: nat :: (q, port) in s.counted ==> (q, port) in s.stored)
    && (forall q: nat :: q < partitions ==> PartitionInv(s, ports, q))
    && (forall i :: 0 <= i < |s.launches| ==> s.launches[i].partition < partitions)
    && (forall i, j :: 0 <= i < j < |s.launches| ==> s.launches[i].partition != s.launches[j].partition)
    && (forall i :: 0 <= i < |s.launches| ==> s.launches[i].inputs == Expected(s, ports, s.launches[i].partition))
  }

  ghost predicate PartitionInv(s: State, ports: seq<Movement>, q: nat)
    requires q < |s.g.pool| && q < |s.g.waiting|
  {
    && s.g.waiting[q] == Uncounted(s, ports, q, |ports|)
    && (IsLaunched(s, q) <==> s.g.waiting[q] == 0 && CountPorts(ports) > 0)
    && (!IsLaunched(s, q) ==> s.g.pool[q] == Expected(s, ports, q))
  }

  /** A port that has not been counted keeps its partition waiting. */
  lemma {:induction false} UncountedPositive(s: State, ports: seq<Movement>, q: nat, port: nat, n: nat)
    requires port < n <= |ports| && ports[port].ScatterGather? && (q, port) !in s.counted
    ensures Uncounted(s, ports, q, n) > 0
  {
    if port < n - 1 {
      UncountedPositive(s, ports, q, port, n - 1);
    }
  }

  /** Counting a port takes one off, and only from its own partition. */
  lemma {:induction false} UncountedLess(s: State, s': State, ports: seq<Movement>, q: nat, port: nat, r: nat, n: nat)
    requires n <= |ports| && port < |ports| && ports[port].ScatterGather? && (q, port) !in s.counted
    requires s'.counted == s.counted + {(q, port)}
    ensures Uncounted(s', ports, r, n) == Uncounted(s, ports, r, n) - if r == q && port < n then 1 else 0
  {
    if n == 0 {
    } else {
      UncountedLess(s, s', ports, q, port, r, n - 1);
    }
  }

  lemma {:induction false} UncountedSame(s: State, s': State, ports: seq<Movement>, q: nat, n: nat)
    requires n <= |ports| && s'.counted == s.counted
    ensures Uncounted(s', ports, q, n) == Uncounted(s, ports, q, n)
  {
    if n == 0 {
    } else {
      UncountedSame(s, s', ports, q, n - 1);
    }
  }

  lemma {:induction false} UncountedZero(s: State, ports: seq<Movement>, q: nat, n: nat)
    requires n <= |ports|
    ensures Uncounted(s, ports, q, n) == 0 <==>
      forall port: nat :: port < n && ports[port].ScatterGather? ==> (q, port) in s.counted
  {
    if n == 0 {
    } else {
      UncountedZero(s, ports, q, n - 1);
    }
  }

  lemma {:induction false} UncountedAtMost(s: State, ports: seq<Movement>, q: nat, n: nat)
    requires n <= |ports|
    ensures Uncounted(s, ports, q, n) <= CountPorts(ports[..n])
  {
    if n == 0 {
    } else {
      UncountedAtMost(s, ports, q, n - 1);
      assert ports[..n][..n - 1] == ports[..n - 1];
    }
  }

  lemma StepIsSafe(s: State, ports: seq<Movement>, partitions: nat, step: Step)
    requires Inv(s, ports, partitions) && CanStep(s, ports, partitions, step)
    ensures Safe(s, step)
  {
    if step.Store? {
      UncountedPositive(s, ports, step.q, step.port, |ports|);
      assert PartitionInv(s, ports, step.q);
    }
  }

  lemma StoreKeeps(s: State, ports: seq<Movement>, partitions: nat, q: nat, port: nat, f: Fragment)
    requires Inv(s, ports, partitions) && CanStep(s, ports, partitions, Store(q, port, f)) && Safe(s, Store(q, port, f))
    ensures Inv(Apply(s, Store(q, port, f)), ports, partitions)
  {
    var s' := Apply(s, Store(q, port, f));
    UncountedPositive(s, ports, q, port, |ports|);
    forall r: nat | r < partitions ensures PartitionInv(s', ports, r) {
      assert PartitionInv(s, ports, r);
      UncountedSame(s, s', ports, r, |ports|);
      assert IsLaunched(s', r) == IsLaunched(s, r);
      assert r != q ==> Expected(s', ports, r) == Expected(s, ports, r);
      assert Expected(s', ports, q) == Expected(s, ports, q)[port := Some(f)];
    }
    assert PartitionInv(s, ports, q);
    forall i | 0 <= i < |s'.launches| ensures s'.launches[i].inputs == Expected(s', ports, s'.launches[i].partition) {
      assert s.launches[i].partition != q;
      assert Expected(s', ports, s.launches[i].partition) == Expected(s, ports, s.launches[i].partition);
    }
  }

  lemma CountKeeps(s: State, ports: seq<Movement>, partitions: nat, q: nat, port: nat)
    requires Inv(s, ports, partitions) && CanStep(s, ports, partitions, Count(q, port)) && Safe(s, Count(q, port))
    ensures Inv(Apply(s, Count(q, port)), ports, partitions)
  {
    var s' := Apply(s, Count(q, port));
    UncountedPositive(s, ports, q, port, |ports|);
    UncountedAtMost(s, ports, q, |ports|);
    assert ports[..|ports|] == ports;
    assert PartitionInv(s, ports, q);
    assert !IsLaunched(s, q);
    forall r: nat | r < partitions ensures PartitionInv(s', ports, r) {
      CountKeepsPartition(s, ports, partitions, q, port, r);
    }
    forall i | 0 <= i < |s'.launches| ensures s'.launches[i].inputs == Expected(s', ports, s'.launches[i].partition) {
      assert Expected(s', ports, s'.launches[i].partition) == Expected(s, ports, s'.launches[i].partition);
    }
  }

  lemma CountKeepsPartition(s: State, ports: seq<Movement>, partitions: nat, q: nat, port: nat, r: nat)
    requires Inv(s, ports, partitions) && CanStep(s, ports, partitions, Count(q, port)) && Safe(s, Count(q, port))
    requires !IsLaunched(s, q) && r < partitions && CountPorts(ports) > 0
    ensures PartitionInv(Apply(s, Count(q, port)), ports, r)
  {
    var s' := Apply(s, Count(q, port));
    assert PartitionInv(s, ports, r);
    UncountedLess(s, s', ports, q, port, r, |ports|);
    assert Expected(s', ports, r) == Expected(s, ports, r);
    if Launched(s.g, q).Some? {
      assert s'.launches[|s.launches|].partition == q;
    }
    assert forall i :: 0 <= i < |s.launches| ==> s'.launches[i] == s.launches[i];
    assert IsLaunched(s', r) <==> IsLaunched(s, r) || (r == q && Launched(s.g, q).Some?);
  }

  // ----- Runs

  ghost function Start(ports: seq<Movement>, partitions: nat): State {
    State(Initial(ports, partitions), map[], {}, [])
  }

  ghost predicate Run(run: seq<State>, ports: seq<Movement>, partitions: nat) {
    && |run| > 0 && run[0] == Start(ports, partitions)
    && forall i :: 0 <= i < |run| - 1 ==> Next(run[i], run[i + 1], ports, partitions)
  }

  ghost predicate Next(s: State, s': State, ports: seq<Movement>, partitions: nat) {
    exists step :: CanStep(s, ports, partitions, step) && Safe(s, step) && s' == Apply(s, step)
  }

  lemma {:induction false} NobodyCounted(s: State, ports: seq<Movement>, q: nat, n: nat)
    requires n <= |ports| && s.counted == {}
    ensures Uncounted(s, ports, q, n) == CountPorts(ports[..n])
  {
    if n == 0 {
    } else {
      NobodyCounted(s, ports, q, n - 1);
      assert ports[..n][..n - 1] == ports[..n - 1];
    }
  }

  lemma {:induction false} RunKeepsInv(run: seq<State>, ports: seq<Movement>, partitions: nat, i: nat)
    requires Run(run, ports, partitions) && i < |run|
    ensures Inv(run[i], ports, partitions)
  {
    if i == 0 {
      forall q: nat | q < partitions ensures PartitionInv(run[0], ports, q) {
        NobodyCounted(run[0], ports, q, |ports|);
        assert ports[..|ports|] == ports;
      }
    } else {
      hide Inv, CanStep, Safe, Apply;
      RunKeepsInv(run, ports, partitions, i - 1);
      var s := run[i - 1];
      assert Next(s, run[i], ports, partitions);
      var step :| CanStep(s, ports, partitions, step) && Safe(s, step) && run[i] == Apply(s, step);
      match step {
        case Store(q, port, f) => StoreKeeps(s, ports, partitions, q, port, f);
        case Count(q, port) => CountKeeps(s, ports, partitions, q, port);
      }
    }
  }

  /** However the arrivals interleave, a partition is launched exactly when the fragments of all its
      scatter-gather ports have arrived, once, and with exactly these fragments. */
  lemma LaunchedOnceWithAllInputs(run: seq<State>, ports: seq<Movement>, partitions: nat, i: nat, q: nat)
    requires Run(run, ports, partitions) && i < |run| && q < partitions && CountPorts(ports) > 0
    ensures IsLaunched(run[i], q) <==>
      forall port: nat :: port < |ports| && ports[port].ScatterGather? ==> (q, port) in run[i].counted
    ensures forall j, k :: 0 <= j < k < |run[i].launches| ==> run[i].launches[j].partition != run[i].launches[k].partition
    ensures forall j, port: nat :: 0 <= j < |run[i].launches| && port < |ports| ==>
      && port < |run[i].launches[j].inputs|
      && run[i].launches[j].inputs[port] ==
           if ports[port].ScatterGather? && (run[i].launches[j].partition, port) in run[i].stored
           then Some(run[i].stored[(run[i].launches[j].partition, port)]) else None
    ensures forall step :: CanStep(run[i], ports, partitions, step) ==> Safe(run[i], step)
  {
    RunKeepsInv(run, ports, partitions, i);
    assert PartitionInv(run[i], ports, q);
    UncountedZero(run[i], ports, q, |ports|);
    forall step | CanStep(run[i], ports, partitions, step) ensures Safe(run[i], step) {
      StepIsSafe(run[i], ports, partitions, step);
    }
  }
}
