/** Initialisation, runs and finalisation of one processor, as a log of calls into user code. */
module ProcessLife {
  import opened TaskGraph

  datatype Event =
    | GlobalInit | LocalInit(worker: nat) | RunCall(worker: nat, task: TaskId) | LocalFin(worker: nat) | GlobalFin

  /** The two kinds of flags and the calls made so far. */
  datatype Life = Life(global: bool, local: seq<bool>, log: seq<Event>)

  function GlobalInitialized(l: Life): Life {
    if l.global then l else l.(global := true, log := l.log + [GlobalInit])
  }

  function GlobalFinalized(l: Life): Life {
    if !l.global then l else l.(global := false, log := l.log + [GlobalFin])
  }

  function LocalInitialized(l: Life, w: nat): Life
    requires w < |l.local|
  {
    if l.local[w] then l else l.(local := l.local[w := true], log := l.log + [LocalInit(w)])
  }

  function LocalFinalized(l: Life, w: nat): Life
    requires w < |l.local|
  {
    if !l.local[w] then l else l.(local := l.local[w := false], log := l.log + [LocalFin(w)])
  }

  /** A run initialises its worker first. */
  function RunOn(l: Life, w: nat, t: TaskId): Life
    requires w < |l.local|
  {
    var ready := LocalInitialized(l, w);
    ready.(log := ready.log + [RunCall(w, t)])
  }

  /** What may be called next after `log`. */
  ghost predicate MayFollow(log: seq<Event>, e: Event) {
    match e
    case GlobalInit => log == []
    case LocalInit(w) => GlobalInit in log && GlobalFin !in log && LocalInit(w) !in log
    case RunCall(w, t) =>
      GlobalInit in log && GlobalFin !in log && LocalInit(w) in log && LocalFin(w) !in log && RunCall(w, t) !in log
    case LocalFin(w) => GlobalFin !in log && LocalInit(w) in log && LocalFin(w) !in log
    case GlobalFin =>
      && GlobalInit in log && GlobalFin !in log
      && forall w: nat :: LocalInit(w) in log ==> LocalFin(w) in log
  }

  /** The order the processor is promised. */
  ghost predicate WellOrdered(log: seq<Event>) {
    forall i :: 0 <= i < |log| ==> MayFollow(log[..i], log[i])
  }

  lemma OrderExtends(log: seq<Event>, e: Event)
    requires WellOrdered(log) && MayFollow(log, e)
    ensures WellOrdered(log + [e])
  {
    forall i | 0 <= i < |log + [e]| ensures MayFollow((log + [e])[..i], (log + [e])[i]) {
      assert (log + [e])[..i] == log[..i];
      assert log[..|log|] == log;
    }
  }

  // ----- What a well ordered log says about any two calls

  lemma InitialisationComesFirst(log: seq<Event>, j: nat)
    requires WellOrdered(log) && j < |log|
    ensures log[0] == GlobalInit
    ensures log[j] == GlobalInit ==> j == 0
    ensures j < |log| - 1 ==> log[j] != GlobalFin
  {
    FirstIsGlobalInit(log);
    assert MayFollow(log[..j], log[j]);
    if j < |log| - 1 {
      assert MayFollow(log[..|log| - 1], log[|log| - 1]);
      assert log[..|log| - 1][j] == log[j];
    }
  }

  lemma FirstIsGlobalInit(log: seq<Event>)
    requires WellOrdered(log) && |log| > 0
    ensures log[0] == GlobalInit
  {
    assert MayFollow(log[..0], log[0]);
  }

  /** Every run lies between the initialisation and the finalisation of its worker, and both happen at
      most once. */
  lemma RunsLieBetween(log: seq<Event>, i: nat, j: nat, w: nat)
    requires WellOrdered(log) && i < |log| && j < |log|
    ensures log[i] == log[j] ==> i == j
    ensures log[i] == LocalInit(w) && log[j].RunCall? && log[j].worker == w ==> i < j
    ensures log[i].RunCall? && log[i].worker == w && log[j] == LocalFin(w) ==> i < j
  {
    var lo, hi := if i <= j then i else j, if i <= j then j else i;
    assert MayFollow(log[..hi], log[hi]);
    if lo < hi {
      assert log[..hi][lo] == log[lo];
    }
  }

  // ----- Flags and log

  /** The flags say what the log says, and the log is in order. `executed` are the tasks that have run;
      the workers below `next` are those that finalisers have been made for. */
  ghost predicate Agrees(l: Life, next: nat, executed: set<TaskId>, entry: TaskId, terminal: TaskId) {
    && WellOrdered(l.log)
    && (forall w: nat :: LocalInit(w) in l.log ==> w < |l.local| && GlobalInit in l.log)
    && (forall w: nat :: w < |l.local| ==> (l.local[w] <==> LocalInit(w) in l.log && LocalFin(w) !in l.log))
    && (forall w: nat :: LocalFin(w) in l.log ==> w < next)
    && (forall w: nat, t: TaskId :: RunCall(w, t) in l.log ==> t in executed)
    && (l.global <==> GlobalInit in l.log && GlobalFin !in l.log)
    && (GlobalInit in l.log <==> entry in executed)
    && (GlobalFin in l.log <==> terminal in executed)
    && (|l.log| > 0 ==> GlobalInit in l.log)
  }

  lemma QuietAgrees(l: Life, next: nat, next': nat, executed: set<TaskId>, entry: TaskId, terminal: TaskId, t: TaskId)
    requires Agrees(l, next, executed, entry, terminal) && t != entry && t != terminal && next <= next'
    ensures Agrees(l, next', executed, entry, terminal)
    ensures Agrees(l, next', executed + {t}, entry, terminal)
  {
    hide WellOrdered;
  }

  lemma GlobalInitAgrees(l: Life, next: nat, executed: set<TaskId>, entry: TaskId, terminal: TaskId)
    requires Agrees(l, next, executed, entry, terminal) && entry !in executed && entry != terminal
    ensures Agrees(GlobalInitialized(l), next, executed + {entry}, entry, terminal)
  {
    assert l.log == [];
    OrderExtends(l.log, GlobalInit);
    hide WellOrdered;
  }

  lemma LocalInitAgrees(l: Life, next: nat, executed: set<TaskId>, entry: TaskId, terminal: TaskId, w: nat)
    requires Agrees(l, next, executed, entry, terminal) && w < |l.local|
    requires GlobalInit in l.log && GlobalFin !in l.log && LocalFin(w) !in l.log
    ensures Agrees(LocalInitialized(l, w), next, executed, entry, terminal)
    ensures forall e :: e in LocalInitialized(l, w).log <==> e in l.log || e == LocalInit(w)
  {
    hide WellOrdered;
    if !l.local[w] {
      OrderExtends(l.log, LocalInit(w));
    }
  }

  lemma CallsAfterInit(log: seq<Event>, w: nat, t: TaskId)
    requires MayFollow(log, RunCall(w, t))
    ensures GlobalInit in log
  {}

  lemma CallAgrees(l: Life, next: nat, executed: set<TaskId>, entry: TaskId, terminal: TaskId, w: nat, t: TaskId)
    requires Agrees(l, next, executed, entry, terminal) && t != entry && t != terminal
    requires MayFollow(l.log, RunCall(w, t))
    ensures Agrees(l.(log := l.log + [RunCall(w, t)]), next, executed + {t}, entry, terminal)
  {
    hide WellOrdered, MayFollow;
    OrderExtends(l.log, RunCall(w, t));
    assert GlobalInit in l.log by { CallsAfterInit(l.log, w, t); }
  }

  lemma RunAgrees(l: Life, next: nat, executed: set<TaskId>, entry: TaskId, terminal: TaskId, w: nat, t: TaskId)
    requires Agrees(l, next, executed, entry, terminal) && w < |l.local| && t != entry && t != terminal
    requires GlobalInit in l.log && GlobalFin !in l.log && LocalFin(w) !in l.log && RunCall(w, t) !in l.log
    ensures Agrees(RunOn(l, w, t), next, executed + {t}, entry, terminal)
  {
    hide Agrees;
    LocalInitAgrees(l, next, executed, entry, terminal, w);
    CallAgrees(LocalInitialized(l, w), next, executed, entry, terminal, w, t);
  }

  lemma LocalFinAgrees(l: Life, next: nat, executed: set<TaskId>, entry: TaskId, terminal: TaskId, w: nat, t: TaskId)
    requires Agrees(l, next, executed, entry, terminal) && w < |l.local| && t != entry && t != terminal
    requires l.local[w] && GlobalFin !in l.log && w < next
    ensures Agrees(LocalFinalized(l, w), next, executed + {t}, entry, terminal)
  {
    hide WellOrdered;
    OrderExtends(l.log, LocalFin(w));
  }

  lemma GlobalFinAgrees(l: Life, next: nat, executed: set<TaskId>, entry: TaskId, terminal: TaskId)
    requires Agrees(l, next, executed, entry, terminal) && l.global && MayFollow(l.log, GlobalFin) && entry != terminal
    ensures Agrees(GlobalFinalized(l), next, executed + {terminal}, entry, terminal)
  {
    hide WellOrdered;
    OrderExtends(l.log, GlobalFin);
  }

  // ----- The object

  class ProcessTask {
    var globalInitialized: bool
    var localInitialized: seq<bool>
    ghost var log: seq<Event>

    ghost function State(): Life
      reads this
    {
      Life(globalInitialized, localInitialized, log)
    }

    constructor (workers: nat)
      ensures State() == Life(false, seq(workers, _ => false), [])
    {
      globalInitialized, localInitialized, log := false, seq(workers, _ => false), [];
    }

    method GlobalInitialize()
      modifies this
      ensures State() == GlobalInitialized(old(State()))
      ensures globalInitialized && localInitialized == old(localInitialized)
      ensures log == old(log) + if old(globalInitialized) then [] else [GlobalInit]
    {
      if globalInitialized {
        return;
      }
      log := log + [GlobalInit];
      globalInitialized := true;
    }

    method GlobalFinalize()
      modifies this
      ensures State() == GlobalFinalized(old(State()))
      ensures !globalInitialized && localInitialized == old(localInitialized)
      ensures log == old(log) + if old(globalInitialized) then [GlobalFin] else []
    {
      if !globalInitialized {
        return;
      }
      globalInitialized := false;
      log := log + [GlobalFin];
    }

    method ThreadLocalInitialize(w: nat)
      requires w < |localInitialized|
      modifies this
      ensures State() == LocalInitialized(old(State()), w)
      ensures globalInitialized == old(globalInitialized) && localInitialized == old(localInitialized)[w := true]
      ensures log == old(log) + if old(localInitialized[w]) then [] else [LocalInit(w)]
    {
      if localInitialized[w] {
        return;
      }
      log := log + [LocalInit(w)];
      localInitialized := localInitialized[w := true];
    }

    method ThreadLocalFinalize(w: nat)
      requires w < |localInitialized|
      modifies this
      ensures State() == LocalFinalized(old(State()), w)
      ensures globalInitialized == old(globalInitialized) && localInitialized == old(localInitialized)[w := false]
      ensures log == old(log) + if old(localInitialized[w]) then [LocalFin(w)] else []
    {
      if !localInitialized[w] {
        return;
      }
      localInitialized := localInitialized[w := false];
      log := log + [LocalFin(w)];
    }

    /** Initialises the worker if need be, then calls the processor. */
    method Run(w: nat, t: TaskId)
      requires w < |localInitialized|
      modifies this
      ensures State() == RunOn(old(State()), w, t)
      ensures globalInitialized == old(globalInitialized) && localInitialized == old(localInitialized)[w := true]
      ensures log == old(log) + (if old(localInitialized[w]) then [] else [LocalInit(w)]) + [RunCall(w, t)]
    {
      ThreadLocalInitialize(w);
      log := log + [RunCall(w, t)];
    }

    /** The workers that need a finaliser. */
    method FinalizerWorkers() returns (workers: seq<nat>)
      ensures forall i, j :: 0 <= i < j < |workers| ==> workers[i] < workers[j]
      ensures forall w: nat :: w in workers <==> w < |localInitialized| && localInitialized[w]
    {
      workers := [];
      for i := 0 to |localInitialized|
        invariant forall k, l :: 0 <= k < l < |workers| ==> workers[k] < workers[l]
        invariant forall k :: 0 <= k < |workers| ==> workers[k] < i
        invariant forall w: nat :: w in workers <==> w < i && localInitialized[w]
      {
        if localInitialized[i] {
          workers := workers + [i];
        }
      }
    }
  }
}
