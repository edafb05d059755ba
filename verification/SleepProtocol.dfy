/** How workers fall asleep and are woken: the scheduler's polling loop against the notifications that
    follow every push and the end of the work. Atomics are sequentially consistent. */
module SleepProtocol {
  import opened Scheduler

  // ----- States

  /** Where a worker is. `Scan(left)` still has the nodes `left` to look at; from `Locked` to `Sure` it
      holds its own mutex; `Sure` has read its flag as set and is about to block. */
  datatype Place =
    | Busy | Entering | CheckingStop | CheckingOwn | Scan(left: seq<nat>)
    | Waiting | Locked | Sure | Blocked | Leaving

  datatype Holder = Nobody | TheWorker | TheNotifier(id: nat)

  /** `own` is the length of the worker's unstealable queue. */
  datatype Worker = Worker(node: nat, at: Place, sleeping: bool, mutex: Holder, own: nat)

  /** Why a notifier notifies: a task pushed for a node, a task pushed for one worker, or the end. */
  datatype Purpose = ForNode(node: nat) | ForWorker(worker: nat) | ForAll

  /** Where a notifier is with its first target; it holds that worker's mutex in `Recheck` and `Clear`. */
  datatype Phase = Load | Lock | Recheck | Clear | Signal

  datatype Notifier = Notifier(purpose: Purpose, targets: seq<nat>, phase: Phase)

  /** `shared` are the lengths of the stealable queues. */
  datatype State = State(workers: seq<Worker>, shared: seq<nat>, stop: bool, notifiers: map<nat, Notifier>, nextId: nat)

  // ----- Going round

  /** All indices below `n`, from `start` on. */
  function Order(start: nat, n: nat): (order: seq<nat>)
    requires n > 0
    ensures |order| == n && forall i :: 0 <= i < n ==> order[i] == Around(start, i, n)
  {
    seq(n, i requires 0 <= i < n => Around(start, i, n))
  }

  lemma OrderCovers(start: nat, n: nat, k: nat)
    requires start < n && k < n
    ensures k in Order(start, n)
  {
    var i := Reached(start, k, n);
    assert Order(start, n)[i] == k;
  }

  // ----- Steps of a worker: take_runnable_task and wait

  datatype Act =
    | Enter | SetFlag | CheckStop | CheckOwn | ScanNode | LockToWait | LoadToWait | Block | WakeAnyway | ResetFlag
    | TakeOwn | TakeShared(q: nat)

  ghost predicate CanAct(v: Worker, shared: seq<nat>, act: Act) {
    && v.node < |shared| && (v.at.Scan? ==> |v.at.left| > 0 && v.at.left[0] < |shared|)
    && match act
       case Enter => v.at == Busy
       case SetFlag => v.at == Entering
       case CheckStop => v.at == CheckingStop
       case CheckOwn => v.at == CheckingOwn
       case ScanNode => v.at.Scan?
       case LockToWait => v.at == Waiting && v.mutex == Nobody
       case LoadToWait => v.at == Locked
       case Block => v.at == Sure
       case WakeAnyway => v.at == Blocked
       case ResetFlag => v.at == Leaving
       case TakeOwn => v.at == Busy && v.own > 0
       case TakeShared(q) => v.at == Busy && q < |shared| && shared[q] > 0
  }

  ghost function Acted(v: Worker, shared: seq<nat>, stop: bool, act: Act): Worker
    requires CanAct(v, shared, act)
  {
    match act
    case Enter => v.(at := Entering)
    case SetFlag => v.(at := CheckingStop, sleeping := true)
    case CheckStop => v.(at := if stop then Leaving else CheckingOwn)
    case CheckOwn =>
      if v.own > 0 then v.(at := Leaving, own := v.own - 1) else v.(at := Scan(Order(v.node, |shared|)))
    case ScanNode =>
      if shared[v.at.left[0]] > 0 then v.(at := Leaving)
      else v.(at := if |v.at.left| == 1 then Waiting else Scan(v.at.left[1..]))
    case LockToWait => v.(at := Locked, mutex := TheWorker)
    case LoadToWait => if v.sleeping then v.(at := Sure) else v.(at := Entering, mutex := Nobody)
    case Block => v.(at := Blocked, mutex := Nobody)
    case WakeAnyway => v.(at := Waiting)
    case ResetFlag => v.(at := Busy, sleeping := false)
    case TakeOwn => v.(own := v.own - 1)
    case TakeShared(q) => v
  }

  ghost function SharedAfter(v: Worker, shared: seq<nat>, act: Act): seq<nat>
    requires CanAct(v, shared, act)
  {
    match act
    case ScanNode =>
      var q := v.at.left[0];
      if shared[q] > 0 then shared[q := shared[q] - 1] else shared
    case TakeShared(q) => shared[q := shared[q] - 1]
    case _ => shared
  }

  // ----- Steps of a notifier: notify, for one target after the other

  ghost predicate CanTell(v: Worker, phase: Phase) {
    phase == Lock ==> v.mutex == Nobody
  }

  /** The target after the notifier's next step. */
  ghost function Told(v: Worker, id: nat, phase: Phase): Worker {
    match phase
    case Load => v
    case Lock => v.(mutex := TheNotifier(id))
    case Recheck => if v.sleeping then v else v.(mutex := Nobody)
    case Clear => v.(sleeping := false, mutex := Nobody)
    case Signal => if v.at == Blocked then v.(at := Waiting) else v
  }

  /** Whether the notifier goes on with this target. */
  ghost predicate Stays(v: Worker, phase: Phase) {
    match phase
    case Load => v.sleeping
    case Lock => true
    case Recheck => v.sleeping
    case Clear => true
    case Signal => false
  }

  function NextPhase(phase: Phase): Phase {
    match phase
    case Load => Lock
    case Lock => Recheck
    case Recheck => Clear
    case _ => Signal
  }

  /** The targets left after the current one: none once a push has found its worker. */
  ghost function LeftOver(m: Notifier): seq<nat>
    requires |m.targets| > 0
  {
    if m.phase == Signal && m.purpose != ForAll then [] else m.targets[1..]
  }

  // ----- Steps of the system

  datatype Step = Work(w: nat, act: Act) | Tell(n: nat) | PushShared(q: nat, start: nat) | PushOwn(w: nat) | StopAll

  ghost predicate Shape(s: State) {
    && |s.workers| > 0 && |s.shared| > 0
    && (forall w :: 0 <= w < |s.workers| ==> WorkerShape(s.workers[w], |s.shared|))
    && (forall n: nat :: n in s.notifiers ==> n < s.nextId && NotifierShape(s.notifiers[n], |s.workers|))
  }

  ghost predicate WorkerShape(v: Worker, nodes: nat) {
    v.node < nodes && (v.at.Scan? ==> |v.at.left| > 0 && forall i :: 0 <= i < |v.at.left| ==> v.at.left[i] < nodes)
  }

  ghost predicate NotifierShape(m: Notifier, workers: nat) {
    |m.targets| > 0 && forall i :: 0 <= i < |m.targets| ==> m.targets[i] < workers
  }

  ghost predicate Enabled(s: State, step: Step) {
    Shape(s) &&
    match step
    case Work(w, act) => w < |s.workers| && CanAct(s.workers[w], s.shared, act)
    case Tell(n) =>
      && n in s.notifiers && |s.notifiers[n].targets| > 0 && s.notifiers[n].targets[0] < |s.workers|
      && CanTell(s.workers[s.notifiers[n].targets[0]], s.notifiers[n].phase)
    case PushShared(q, start) => q < |s.shared| && start < |s.workers|
    case PushOwn(w) => w < |s.workers|
    case StopAll => true
  }

  ghost function Launch(s: State, purpose: Purpose, targets: seq<nat>): State {
    s.(notifiers := s.notifiers[s.nextId := Notifier(purpose, targets, Load)], nextId := s.nextId + 1)
  }

  ghost function NotifiersAfter(s: State, n: nat, v: Worker): map<nat, Notifier>
    requires n in s.notifiers && |s.notifiers[n].targets| > 0
  {
    var m := s.notifiers[n];
    if Stays(v, m.phase) then s.notifiers[n := m.(phase := NextPhase(m.phase))]
    else if LeftOver(m) == [] then s.notifiers - {n}
    else s.notifiers[n := m.(targets := LeftOver(m), phase := Load)]
  }

  ghost function Apply(s: State, step: Step): State
    requires Enabled(s, step)
  {
    match step
    case Work(w, act) =>
      s.(workers := s.workers[w := Acted(s.workers[w], s.shared, s.stop, act)],
         shared := SharedAfter(s.workers[w], s.shared, act))
    case Tell(n) =>
      var t := s.notifiers[n].targets[0];
      s.(workers := s.workers[t := Told(s.workers[t], n, s.notifiers[n].phase)],
         notifiers := NotifiersAfter(s, n, s.workers[t]))
    case PushShared(q, start) =>
      Launch(s.(shared := s.shared[q := s.shared[q] + 1]), ForNode(q), Order(start, |s.workers|))
    case PushOwn(w) =>
      Launch(s.(workers := s.workers[w := s.workers[w].(own := s.workers[w].own + 1)]), ForWorker(w), [w])
    case StopAll => Launch(s.(stop := true), ForAll, Order(0, |s.workers|))
  }

  ghost predicate Next(s: State, s': State) {
    exists step :: Enabled(s, step) && s' == Apply(s, step)
  }

  ghost function Start(nodeOf: seq<nat>, nodes: nat): State {
    State(seq(|nodeOf|, w requires 0 <= w < |nodeOf| => Worker(nodeOf[w], Busy, false, Nobody, 0)),
      seq(nodes, _ => 0), false, map[], 0)
  }

  // ----- The invariant

  ghost predicate At(s: State, n: nat, phase: Phase, w: nat) {
    n in s.notifiers && s.notifiers[n].phase == phase && |s.notifiers[n].targets| > 0 && s.notifiers[n].targets[0] == w
  }

  /** What holds of a worker on its own: it holds its mutex just when it should, and when it is sure that
      its flag is set it is right. */
  ghost predicate Sound(v: Worker) {
    && (v.mutex == TheWorker <==> v.at == Locked || v.at == Sure)
    && (v.at == Sure ==> v.sleeping)
  }

  ghost predicate AllSound(s: State) {
    forall w :: 0 <= w < |s.workers| ==> Sound(s.workers[w])
  }

  /** A notifier between locking and clearing holds its target's mutex. */
  ghost predicate NotifiersHold(s: State) {
    forall n: nat, w: nat {:trigger At(s, n, Recheck, w)} {:trigger At(s, n, Clear, w)} ::
      w < |s.workers| && (At(s, n, Recheck, w) || At(s, n, Clear, w)) ==> s.workers[w].mutex == TheNotifier(n)
  }

  /** Only such a notifier does, so a held mutex is always given back. */
  ghost predicate HoldersWork(s: State) {
    forall w: nat :: w < |s.workers| && s.workers[w].mutex.TheNotifier? ==>
      At(s, s.workers[w].mutex.id, Recheck, w) || At(s, s.workers[w].mutex.id, Clear, w)
  }

  /** Whoever is blocked with its flag cleared is about to be signalled. */
  ghost predicate ClearedAreWoken(s: State) {
    forall w: nat :: w < |s.workers| && s.workers[w].at == Blocked && !s.workers[w].sleeping ==>
      exists n: nat :: At(s, n, Signal, w)
  }

  ghost predicate PastScan(v: Worker) {
    v.at in {Waiting, Locked, Sure, Blocked}
  }

  /** The worker would sleep through a task in queue `q`: its flag is up and it has looked there already. */
  ghost predicate DeafTo(v: Worker, q: nat) {
    v.sleeping && ((v.at.Scan? && q !in v.at.left) || PastScan(v))
  }

  ghost predicate DeafToOwn(v: Worker) {
    v.sleeping && (v.at.Scan? || PastScan(v))
  }

  ghost predicate DeafToStop(v: Worker) {
    v.sleeping && (v.at == CheckingOwn || v.at.Scan? || PastScan(v))
  }

  /** A push notifier that has not cleared any flag and still has every worker to ask. */
  ghost predicate JustPushed(s: State, n: nat, q: nat) {
    && n in s.notifiers && s.notifiers[n].purpose == ForNode(q) && s.notifiers[n].phase != Signal
    && |s.notifiers[n].targets| == |s.workers|
  }

  ghost predicate Somebody(s: State, w: nat, q: nat) {
    w < |s.workers| && !DeafTo(s.workers[w], q)
  }

  /** A task in a stealable queue is noticed by somebody, or its push has yet to notify. */
  ghost predicate SharedHeard(s: State) {
    forall q: nat :: q < |s.shared| && s.shared[q] > 0 ==>
      (exists w: nat :: Somebody(s, w, q)) || exists n: nat :: JustPushed(s, n, q)
  }

  ghost predicate WillTell(s: State, n: nat, w: nat) {
    && n in s.notifiers && s.notifiers[n].purpose == ForWorker(w) && s.notifiers[n].targets == [w]
    && s.notifiers[n].phase != Signal
  }

  ghost predicate OwnHeard(s: State) {
    forall w: nat :: w < |s.workers| && s.workers[w].own > 0 ==>
      !DeafToOwn(s.workers[w]) || exists n: nat :: WillTell(s, n, w)
  }

  ghost predicate WillStop(s: State, n: nat, w: nat) {
    && n in s.notifiers && s.notifiers[n].purpose == ForAll && w in s.notifiers[n].targets
    && (s.notifiers[n].phase == Signal ==> s.notifiers[n].targets[0] != w)
  }

  ghost predicate StopHeard(s: State) {
    s.stop ==> forall w: nat :: w < |s.workers| ==> !DeafToStop(s.workers[w]) || exists n: nat :: WillStop(s, n, w)
  }

  ghost predicate Inv(s: State) {
    && Shape(s) && AllSound(s) && NotifiersHold(s) && HoldersWork(s) && ClearedAreWoken(s)
    && SharedHeard(s) && OwnHeard(s) && StopHeard(s)
  }

  // ----- What a worker's step does to that worker

  lemma ActedFacts(v: Worker, shared: seq<nat>, stop: bool, act: Act)
    requires WorkerShape(v, |shared|) && CanAct(v, shared, act) && Sound(v)
    ensures WorkerShape(Acted(v, shared, stop, act), |SharedAfter(v, shared, act)|)
    ensures |SharedAfter(v, shared, act)| == |shared|
    ensures Sound(Acted(v, shared, stop, act))
    ensures v.mutex.TheNotifier? || Acted(v, shared, stop, act).mutex.TheNotifier? ==>
      Acted(v, shared, stop, act).mutex == v.mutex
    ensures Acted(v, shared, stop, act).at == Blocked ==> Acted(v, shared, stop, act).sleeping
  {}

  /** A worker does not become deaf to a task that is there. */
  lemma StaysAlert(v: Worker, shared: seq<nat>, stop: bool, act: Act, q: nat)
    requires WorkerShape(v, |shared|) && CanAct(v, shared, act) && q < |shared|
    ensures SharedAfter(v, shared, act)[q] <= shared[q] && Acted(v, shared, stop, act).own <= v.own
    ensures shared[q] > 0 && DeafTo(Acted(v, shared, stop, act), q) ==> DeafTo(v, q)
    ensures v.own > 0 && DeafToOwn(Acted(v, shared, stop, act)) ==> DeafToOwn(v)
    ensures stop && DeafToStop(Acted(v, shared, stop, act)) ==> DeafToStop(v)
  {
    if act == CheckOwn {
      OrderCovers(v.node, |shared|, q);
    }
  }

  // ----- What a notifier's step does

  lemma {:induction false} ToldFacts(v: Worker, id: nat, phase: Phase)
    requires Sound(v) && CanTell(v, phase) && (phase == Recheck || phase == Clear ==> v.mutex == TheNotifier(id))
    ensures var u := Told(v, id, phase);
      && Sound(u) && u.node == v.node && u.own == v.own
      && (u.at == v.at || (v.at == Blocked && u.at == Waiting)) && (u.sleeping ==> v.sleeping)
  {}

  /** Whom the notifier is done with is not deaf to anything. */
  lemma DoneIsAwake(v: Worker, id: nat, phase: Phase)
    ensures phase != Signal && !Stays(v, phase) ==> !v.sleeping && !Told(v, id, phase).sleeping
    ensures phase == Clear ==> !Told(v, id, phase).sleeping
  {}

  // ----- Every step of a worker keeps the invariant

  lemma WorkKeepsShape(s: State, w: nat, act: Act)
    requires Shape(s) && AllSound(s) && Enabled(s, Work(w, act))
    ensures Shape(Apply(s, Work(w, act))) && AllSound(Apply(s, Work(w, act)))
    ensures NotifiersHold(s) ==> NotifiersHold(Apply(s, Work(w, act)))
    ensures HoldersWork(s) ==> HoldersWork(Apply(s, Work(w, act)))
    ensures ClearedAreWoken(s) ==> ClearedAreWoken(Apply(s, Work(w, act)))
  {
    hide Acted, SharedAfter, CanAct, WorkerShape, NotifierShape, Sound;
    var v, s' := s.workers[w], Apply(s, Work(w, act));
    ActedFacts(v, s.shared, s.stop, act);
    assert Sound(v);
    forall n: nat, u: nat ensures At(s', n, Signal, u) == At(s, n, Signal, u)
      ensures At(s', n, Recheck, u) == At(s, n, Recheck, u) && At(s', n, Clear, u) == At(s, n, Clear, u)
    {}
    if ClearedAreWoken(s) {
      forall u: nat | u < |s'.workers| && s'.workers[u].at == Blocked && !s'.workers[u].sleeping
        ensures exists n: nat :: At(s', n, Signal, u)
      {
        assert u != w;
        var n: nat :| At(s, n, Signal, u);
        assert At(s', n, Signal, u);
      }
    }
  }

  lemma WorkKeepsHearing(s: State, w: nat, act: Act)
    requires Enabled(s, Work(w, act)) && SharedHeard(s) && OwnHeard(s) && StopHeard(s)
    ensures SharedHeard(Apply(s, Work(w, act)))
    ensures OwnHeard(Apply(s, Work(w, act)))
    ensures StopHeard(Apply(s, Work(w, act)))
  {
    hide Acted, CanAct, WorkerShape, NotifierShape, DeafTo, DeafToOwn, DeafToStop, SharedAfter;
    var v, s' := s.workers[w], Apply(s, Work(w, act));
    assert WorkerShape(v, |s.shared|);
    assert |s'.shared| == |s.shared| by { SharedLength(v, s.shared, act); }
    forall q: nat | q < |s'.shared| && s'.shared[q] > 0
      ensures (exists u: nat :: Somebody(s', u, q)) || exists n: nat :: JustPushed(s', n, q)
    {
      StaysAlert(v, s.shared, s.stop, act, q);
      if n: nat :| JustPushed(s, n, q) {
        assert JustPushed(s', n, q);
      } else {
        var u: nat :| Somebody(s, u, q);
        assert Somebody(s', u, q);
      }
    }
    forall u: nat | u < |s'.workers|
      ensures s'.workers[u].own > 0 ==> !DeafToOwn(s'.workers[u]) || exists n: nat :: WillTell(s', n, u)
      ensures s'.stop ==> !DeafToStop(s'.workers[u]) || exists n: nat :: WillStop(s', n, u)
    {
      StaysAlert(v, s.shared, s.stop, act, 0);
      assert forall n: nat :: WillTell(s, n, u) ==> WillTell(s', n, u);
      assert forall n: nat :: WillStop(s, n, u) ==> WillStop(s', n, u);
    }
  }

  lemma SharedLength(v: Worker, shared: seq<nat>, act: Act)
    requires CanAct(v, shared, act)
    ensures |SharedAfter(v, shared, act)| == |shared|
  {}

  // ----- Every step of a notifier keeps it

  /** Being told only makes a worker more alert. */
  lemma ToldIsAlert(v: Worker, id: nat, phase: Phase, q: nat)
    ensures DeafTo(Told(v, id, phase), q) ==> DeafTo(v, q)
    ensures DeafToOwn(Told(v, id, phase)) ==> DeafToOwn(v)
    ensures DeafToStop(Told(v, id, phase)) ==> DeafToStop(v)
    ensures Told(v, id, phase).own == v.own && Told(v, id, phase).node == v.node
    ensures Told(v, id, phase).at.Scan? ==> Told(v, id, phase) == v.(sleeping := Told(v, id, phase).sleeping,
      mutex := Told(v, id, phase).mutex)
  {}

  lemma TellKeepsShape(s: State, n: nat)
    requires Shape(s) && AllSound(s) && NotifiersHold(s) && Enabled(s, Tell(n))
    ensures Shape(Apply(s, Tell(n))) && AllSound(Apply(s, Tell(n)))
  {
    hide Told, Stays, NextPhase;
    var s', m := Apply(s, Tell(n)), s.notifiers[n];
    assert NotifierShape(m, |s.workers|);
    var t := m.targets[0];
    var v := s.workers[t];
    assert At(s, n, m.phase, t) && Sound(v) && WorkerShape(v, |s.shared|);
    ToldFacts(v, n, m.phase);
    ToldIsAlert(v, n, m.phase, 0);
    hide Sound, CanTell;
    assert forall k: nat :: k in s'.notifiers ==> k == n || (k in s.notifiers && s'.notifiers[k] == s.notifiers[k]);
    assert n in s'.notifiers ==> NotifierShape(s'.notifiers[n], |s.workers|);
  }

  lemma TellKeepsHolding(s: State, n: nat)
    requires Shape(s) && NotifiersHold(s) && Enabled(s, Tell(n))
    ensures NotifiersHold(Apply(s, Tell(n)))
  {
    var s', m := Apply(s, Tell(n)), s.notifiers[n];
    var t := m.targets[0];
    hide Shape;
    assert At(s, n, m.phase, t);
    forall k: nat, w: nat | w < |s'.workers| && (At(s', k, Recheck, w) || At(s', k, Clear, w))
      ensures s'.workers[w].mutex == TheNotifier(k)
    {
      if k != n {
        assert At(s, k, s.notifiers[k].phase, w);
      }
    }
  }

  lemma TellKeepsHolders(s: State, n: nat)
    requires Shape(s) && HoldersWork(s) && NotifiersHold(s) && Enabled(s, Tell(n))
    ensures HoldersWork(Apply(s, Tell(n)))
  {
    var s', m := Apply(s, Tell(n)), s.notifiers[n];
    var t := m.targets[0];
    hide Shape;
    assert At(s, n, m.phase, t);
    forall w: nat | w < |s'.workers| && s'.workers[w].mutex.TheNotifier?
      ensures At(s', s'.workers[w].mutex.id, Recheck, w) || At(s', s'.workers[w].mutex.id, Clear, w)
    {
      if w != t {
        var k := s.workers[w].mutex.id;
        assert At(s, k, Recheck, w) || At(s, k, Clear, w);
      }
    }
  }

  lemma TellKeepsWoken(s: State, n: nat)
    requires Shape(s) && ClearedAreWoken(s) && Enabled(s, Tell(n))
    ensures ClearedAreWoken(Apply(s, Tell(n)))
  {
    var s', m := Apply(s, Tell(n)), s.notifiers[n];
    var t := m.targets[0];
    hide Shape;
    forall w: nat | w < |s'.workers| && s'.workers[w].at == Blocked && !s'.workers[w].sleeping
      ensures exists k: nat :: At(s', k, Signal, w)
    {
      if w == t && m.phase == Clear {
        assert At(s', n, Signal, w);
      } else {
        var k: nat :| At(s, k, Signal, w);
        assert k != n;
        assert At(s', k, Signal, w);
      }
    }
  }

  lemma TellKeepsHearing(s: State, n: nat)
    requires Enabled(s, Tell(n)) && SharedHeard(s) && OwnHeard(s)
    ensures SharedHeard(Apply(s, Tell(n))) && OwnHeard(Apply(s, Tell(n)))
  {
    hide Told, Shape, DeafTo, DeafToOwn, CanTell, Stays;
    var s', m := Apply(s, Tell(n)), s.notifiers[n];
    var t := m.targets[0];
    var v := s.workers[t];
    DoneIsAwake(v, n, m.phase);
    AwakeIsAlert(s'.workers[t]);
    forall q: nat | q < |s'.shared| && s'.shared[q] > 0
      ensures (exists u: nat :: Somebody(s', u, q)) || exists k: nat :: JustPushed(s', k, q)
    {
      ToldIsAlert(v, n, m.phase, q);
      if u: nat :| Somebody(s, u, q) {
        assert Somebody(s', u, q);
      } else {
        var k: nat :| JustPushed(s, k, q);
        assert JustPushed(s', k, q) || Somebody(s', t, q);
      }
    }
    forall u: nat | u < |s'.workers| && s'.workers[u].own > 0
      ensures !DeafToOwn(s'.workers[u]) || exists k: nat :: WillTell(s', k, u)
    {
      ToldIsAlert(v, n, m.phase, 0);
      if k: nat :| WillTell(s, k, u) {
        assert WillTell(s', k, u) || u == t;
      }
    }
  }

  lemma AwakeIsAlert(v: Worker)
    ensures !v.sleeping ==> !DeafToOwn(v) && !DeafToStop(v) && forall q: nat :: !DeafTo(v, q)
  {}

  lemma TellKeepsStopping(s: State, n: nat)
    requires Enabled(s, Tell(n)) && StopHeard(s)
    ensures StopHeard(Apply(s, Tell(n)))
  {
    hide Told, Shape, DeafToStop, CanTell, Stays;
    var s', m := Apply(s, Tell(n)), s.notifiers[n];
    var t := m.targets[0];
    var v := s.workers[t];
    DoneIsAwake(v, n, m.phase);
    AwakeIsAlert(s'.workers[t]);
    ToldIsAlert(v, n, m.phase, 0);
    assert m.targets == [t] + m.targets[1..];
    if s.stop {
      forall u: nat | u < |s'.workers| ensures !DeafToStop(s'.workers[u]) || exists k: nat :: WillStop(s', k, u) {
        if k: nat :| WillStop(s, k, u) {
          assert WillStop(s', k, u) || (k == n && u == t);
        }
      }
    }
  }

  // ----- Pushes and the end

  ghost predicate IsLaunch(step: Step) {
    step.PushShared? || step.PushOwn? || step.StopAll?
  }

  /** The new notifier is the only change among the notifiers. */
  lemma {:induction false} LaunchAdds(s: State, step: Step)
    requires Enabled(s, step) && IsLaunch(step)
    ensures var s' := Apply(s, step);
      && s.nextId !in s.notifiers && s'.nextId == s.nextId + 1
      && s.nextId in s'.notifiers && NotifierShape(s'.notifiers[s.nextId], |s.workers|)
      && s'.notifiers[s.nextId].phase == Load
      && s'.notifiers == s.notifiers[s.nextId := s'.notifiers[s.nextId]]
      && |s'.workers| == |s.workers| && |s'.shared| == |s.shared|
      && (forall w :: 0 <= w < |s.workers| ==> s'.workers[w] == s.workers[w].(own := s'.workers[w].own))
  {
    hide WorkerShape;
  }

  lemma LaunchKeepsRest(s: State, step: Step)
    requires Inv(s) && Enabled(s, step) && IsLaunch(step)
    ensures Shape(Apply(s, step)) && AllSound(Apply(s, step)) && NotifiersHold(Apply(s, step))
    ensures HoldersWork(Apply(s, step)) && ClearedAreWoken(Apply(s, step))
  {
    hide Apply, NotifierShape, IsLaunch, Enabled;
    var s' := Apply(s, step);
    LaunchAdds(s, step);
    assert forall w :: 0 <= w < |s.workers| ==> WorkerShape(s.workers[w], |s.shared|) && Sound(s.workers[w]);
    forall k: nat, w: nat ensures At(s', k, Signal, w) == At(s, k, Signal, w)
      ensures At(s', k, Recheck, w) == At(s, k, Recheck, w) && At(s', k, Clear, w) == At(s, k, Clear, w)
    {}
    forall w: nat | w < |s'.workers| && s'.workers[w].at == Blocked && !s'.workers[w].sleeping
      ensures exists k: nat :: At(s', k, Signal, w)
    {
      var k: nat :| At(s, k, Signal, w);
      assert At(s', k, Signal, w);
    }
  }

  lemma LaunchKeepsHearing(s: State, step: Step)
    requires Enabled(s, step) && IsLaunch(step) && SharedHeard(s) && OwnHeard(s) && StopHeard(s)
    ensures SharedHeard(Apply(s, step)) && OwnHeard(Apply(s, step)) && StopHeard(Apply(s, step))
  {
    hide NotifierShape, WorkerShape, DeafTo, DeafToOwn, DeafToStop;
    var s', id := Apply(s, step), s.nextId;
    LaunchAdds(s, step);
    forall u: nat | u < |s.workers| ensures SameEars(s'.workers[u], s.workers[u]) {
      OwnIsNoEar(s.workers[u], s'.workers[u].own);
    }
    forall q: nat | q < |s'.shared| && s'.shared[q] > 0
      ensures (exists u: nat :: Somebody(s', u, q)) || exists k: nat :: JustPushed(s', k, q)
    {
      if step.PushShared? && step.q == q {
        assert JustPushed(s', id, q);
      } else if k: nat :| JustPushed(s, k, q) {
        assert JustPushed(s', k, q);
      } else {
        var u: nat :| Somebody(s, u, q);
        assert SameEars(s'.workers[u], s.workers[u]);
        assert Somebody(s', u, q);
      }
    }
    forall u: nat | u < |s'.workers|
      ensures s'.workers[u].own > 0 ==> !DeafToOwn(s'.workers[u]) || exists k: nat :: WillTell(s', k, u)
      ensures s'.stop ==> !DeafToStop(s'.workers[u]) || exists k: nat :: WillStop(s', k, u)
    {
      assert SameEars(s'.workers[u], s.workers[u]);
      assert forall k: nat :: WillTell(s, k, u) ==> WillTell(s', k, u);
      assert forall k: nat :: WillStop(s, k, u) ==> WillStop(s', k, u);
      if step.PushOwn? && step.w == u {
        assert WillTell(s', id, u);
      }
      if step.StopAll? {
        OrderCovers(0, |s.workers|, u);
        assert WillStop(s', id, u);
      }
    }
  }

  ghost predicate SameEars(v: Worker, u: Worker) {
    && DeafToOwn(v) == DeafToOwn(u) && DeafToStop(v) == DeafToStop(u)
    && forall q: nat :: DeafTo(v, q) == DeafTo(u, q)
  }

  lemma OwnIsNoEar(v: Worker, own: nat)
    ensures SameEars(v.(own := own), v)
  {}

  lemma InvKept(s: State, step: Step)
    requires Inv(s) && Enabled(s, step)
    ensures Inv(Apply(s, step))
  {
    hide Enabled, Apply, Shape, AllSound, NotifiersHold, HoldersWork, ClearedAreWoken, SharedHeard, OwnHeard, StopHeard;
    match step {
      case Work(w, act) =>
        WorkKeepsShape(s, w, act);
        WorkKeepsHearing(s, w, act);
      case Tell(n) =>
        TellKeepsShape(s, n);
        TellKeepsHolding(s, n);
        TellKeepsHolders(s, n);
        TellKeepsWoken(s, n);
        TellKeepsHearing(s, n);
        TellKeepsStopping(s, n);
      case _ =>
        LaunchKeepsRest(s, step);
        LaunchKeepsHearing(s, step);
    }
  }

  // ----- Runs

  ghost predicate Run(run: seq<State>, nodeOf: seq<nat>, nodes: nat) {
    && |nodeOf| > 0 && (forall w :: 0 <= w < |nodeOf| ==> nodeOf[w] < nodes)
    && |run| > 0 && run[0] == Start(nodeOf, nodes)
    && forall i :: 0 <= i < |run| - 1 ==> Next(run[i], run[i + 1])
  }

  lemma InvAtStart(nodeOf: seq<nat>, nodes: nat)
    requires |nodeOf| > 0 && forall w :: 0 <= w < |nodeOf| ==> nodeOf[w] < nodes
    ensures Inv(Start(nodeOf, nodes))
  {
    assert nodeOf[0] < nodes;
    assert Shape(Start(nodeOf, nodes));
  }

  lemma {:induction false} RunKeepsInv(run: seq<State>, nodeOf: seq<nat>, nodes: nat, i: nat)
    requires Run(run, nodeOf, nodes) && i < |run|
    ensures Inv(run[i])
  {
    hide Enabled, Apply, Inv;
    if i == 0 {
      InvAtStart(nodeOf, nodes);
    } else {
      RunKeepsInv(run, nodeOf, nodes, i - 1);
      assert Next(run[i - 1], run[i]);
      var step :| Enabled(run[i - 1], step) && run[i] == Apply(run[i - 1], step);
      InvKept(run[i - 1], step);
    }
  }

  ghost predicate AllBlocked(s: State) {
    forall w :: 0 <= w < |s.workers| ==> s.workers[w].at == Blocked
  }

  /** No lost wakeup for stealable tasks: whenever all workers are blocked although a stealable queue
      holds a task, some notifier is still at work, and if it is past its search it is about to signal a
      worker that is blocked. */
  lemma NoLostWakeup(run: seq<State>, nodeOf: seq<nat>, nodes: nat, i: nat, q: nat) returns (n: nat)
    requires Run(run, nodeOf, nodes) && i < |run|
    requires q < |run[i].shared| && run[i].shared[q] > 0 && AllBlocked(run[i])
    ensures n in run[i].notifiers
    ensures JustPushed(run[i], n, q) || exists w: nat :: w < |run[i].workers| && At(run[i], n, Signal, w)
  {
    RunKeepsInv(run, nodeOf, nodes, i);
    var s := run[i];
    if k: nat :| JustPushed(s, k, q) {
      n := k;
    } else {
      var w: nat :| Somebody(s, w, q);
      assert s.workers[w].at == Blocked;
      n :| At(s, n, Signal, w);
    }
  }

  /** No lost wakeup for unstealable tasks: a worker is blocked although its own queue holds a task only
      while a notifier is on its way to that worker. */
  lemma NoLostOwnWakeup(run: seq<State>, nodeOf: seq<nat>, nodes: nat, i: nat, w: nat)
    returns (n: nat)
    requires Run(run, nodeOf, nodes) && i < |run|
    requires w < |run[i].workers| && run[i].workers[w].own > 0 && run[i].workers[w].at == Blocked
    ensures n in run[i].notifiers && |run[i].notifiers[n].targets| > 0 && run[i].notifiers[n].targets[0] == w
    ensures WillTell(run[i], n, w) || At(run[i], n, Signal, w)
  {
    RunKeepsInv(run, nodeOf, nodes, i);
    var s := run[i];
    if k: nat :| WillTell(s, k, w) {
      n := k;
    } else {
      n :| At(s, n, Signal, w);
    }
  }

  /** After the end of the work nobody stays blocked without a notifier that will still wake it. */
  lemma NobodySleepsOn(run: seq<State>, nodeOf: seq<nat>, nodes: nat, i: nat, w: nat) returns (n: nat)
    requires Run(run, nodeOf, nodes) && i < |run|
    requires run[i].stop && w < |run[i].workers| && run[i].workers[w].at == Blocked
    ensures n in run[i].notifiers && w in run[i].notifiers[n].targets
    ensures WillStop(run[i], n, w) || At(run[i], n, Signal, w)
  {
    RunKeepsInv(run, nodeOf, nodes, i);
    var s := run[i];
    if k: nat :| WillStop(s, k, w) {
      n := k;
    } else {
      n :| At(s, n, Signal, w);
    }
  }

  /** No deadlock on a mutex: a notifier can always move on, or the thread that holds its target's mutex
      can. */
  lemma NotifierNeverStuck(run: seq<State>, nodeOf: seq<nat>, nodes: nat, i: nat, n: nat)
    returns (step: Step)
    requires Run(run, nodeOf, nodes) && i < |run| && n in run[i].notifiers
    ensures Enabled(run[i], step) && (step.Tell? || step.Work?)
    ensures step == Tell(n) || (run[i].notifiers[n].phase == Lock &&
      match run[i].workers[run[i].notifiers[n].targets[0]].mutex
      case Nobody => false
      case TheWorker => step.Work? && step.w == run[i].notifiers[n].targets[0]
      case TheNotifier(k) => step == Tell(k))
  {
    RunKeepsInv(run, nodeOf, nodes, i);
    var s := run[i];
    var m := s.notifiers[n];
    assert NotifierShape(m, |s.workers|);
    var t := m.targets[0];
    var v := s.workers[t];
    assert Sound(v) && WorkerShape(v, |s.shared|);
    if CanTell(v, m.phase) {
      step := Tell(n);
    } else if v.mutex == TheWorker {
      step := Work(t, if v.at == Locked then LoadToWait else Block);
    } else {
      step := Tell(v.mutex.id);
      assert At(s, v.mutex.id, Recheck, t) || At(s, v.mutex.id, Clear, t);
    }
  }

  // ----- Workers do sleep, and do wake up

  /** A sequence of steps from `s` to `t`. */
  ghost predicate Leads(run: seq<State>, s: State, t: State) {
    && |run| > 0 && run[0] == s && run[|run| - 1] == t
    && forall i :: 0 <= i < |run| - 1 ==> Next(run[i], run[i + 1])
  }

  lemma LeadsFurther(run: seq<State>, s: State, t: State, step: Step)
    requires Leads(run, s, t) && Enabled(t, step)
    ensures Leads(run + [Apply(t, step)], s, Apply(t, step))
  {
    hide Enabled, Apply;
    var longer := run + [Apply(t, step)];
    assert Next(t, Apply(t, step));
    forall i | 0 <= i < |longer| - 1 ensures Next(longer[i], longer[i + 1]) {
      assert longer[i] == run[i];
    }
  }

  ghost function WithWorker(s: State, w: nat, v: Worker): State
    requires w < |s.workers|
  {
    s.(workers := s.workers[w := v])
  }

  /** A worker does something that leaves the queues alone. */
  lemma {:induction false} WorkerGoesOn(run: seq<State>, s: State, t: State, w: nat, act: Act) returns (run': seq<State>)
    requires Leads(run, s, t) && Inv(t) && w < |t.workers| && CanAct(t.workers[w], t.shared, act)
    requires SharedAfter(t.workers[w], t.shared, act) == t.shared
    ensures var t' := WithWorker(t, w, Acted(t.workers[w], t.shared, t.stop, act)); Leads(run', s, t') && Inv(t')
  {
    hide Leads, Inv, CanAct, Acted, SharedAfter;
    InvShape(t);
    var t' := Apply(t, Work(w, act));
    LeadsFurther(run, s, t, Work(w, act));
    InvKept(t, Work(w, act));
    run' := run + [t'];
  }

  /** The scan finds nothing in empty queues. */
  lemma {:induction false} ScanFindsNothing(run: seq<State>, s: State, t: State, w: nat) returns (run': seq<State>)
    requires Leads(run, s, t) && Inv(t) && w < |t.workers| && t.workers[w].at.Scan?
    requires forall q :: 0 <= q < |t.shared| ==> t.shared[q] == 0
    ensures var t' := WithWorker(t, w, t.workers[w].(at := Waiting)); Leads(run', s, t') && Inv(t')
    decreases if t.workers[w].at.Scan? then |t.workers[w].at.left| else 0
  {
    hide Leads;
    var v := t.workers[w];
    assert WorkerShape(v, |t.shared|);
    run' := WorkerGoesOn(run, s, t, w, ScanNode);
    if |v.at.left| > 1 {
      var t1 := WithWorker(t, w, v.(at := Scan(v.at.left[1..])));
      assert t1.workers[w].at.Scan?;
      assert WithWorker(t1, w, v.(at := Waiting)) == WithWorker(t, w, v.(at := Waiting));
      run' := ScanFindsNothing(run', s, t1, w);
    }
  }

  /** In any state of a run in which nothing is queued for it and the work has not ended, a busy worker whose
      mutex is free can go through the polling loop until it is blocked with its flag set. */
  lemma WorkerFallsAsleep(s: State, w: nat) returns (run: seq<State>)
    requires Inv(s) && w < |s.workers| && !SomethingToDo(s, w) && s.workers[w].mutex == Nobody
    requires s.workers[w].at == Busy
    ensures Leads(run, s, WithWorker(s, w, s.workers[w].(at := Blocked, sleeping := true)))
  {
    hide Leads, Inv;
    var v := s.workers[w];
    LeadsNowhere(s);
    ShapeOf(s, w);
    run := WorkerGoesOn([s], s, s, w, Enter);
    var t := WithWorker(s, w, v.(at := Entering));
    run := LooksAndSleeps(run, s, t, w);
    t := Again(s, t, w, v.(at := Blocked, sleeping := true));
  }

  ghost predicate SomethingToDo(s: State, w: nat)
    requires w < |s.workers|
  {
    s.stop || s.workers[w].own > 0 || exists q :: 0 <= q < |s.shared| && s.shared[q] > 0
  }

  /** From the place where the flag is set, once round the loop without finding anything. */
  lemma LooksAndSleeps(run: seq<State>, from: State, s: State, w: nat) returns (run': seq<State>)
    requires Leads(run, from, s) && Inv(s) && w < |s.workers| && !SomethingToDo(s, w)
    requires s.workers[w].at == Entering && s.workers[w].mutex == Nobody
    ensures Leads(run', from, WithWorker(s, w, s.workers[w].(at := Blocked, sleeping := true)))
  {
    hide Leads, Inv;
    ShapeOf(s, w);
    run' := PollsQueues(run, from, s, w);
    run' := ScanFindsNothing(run', from, WithWorker(s, w, Polling(s, w)), w);
    var t := Again(s, WithWorker(s, w, Polling(s, w)), w, s.workers[w].(at := Waiting, sleeping := true));
    run' := WaitsIdle(run', from, t, w);
    t := Again(s, t, w, s.workers[w].(at := Blocked, sleeping := true));
  }

  /** The worker at the beginning of its scan. */
  ghost function Polling(s: State, w: nat): Worker
    requires w < |s.workers| && |s.shared| > 0
  {
    s.workers[w].(at := Scan(Order(s.workers[w].node, |s.shared|)), sleeping := true)
  }

  lemma PollsQueues(run: seq<State>, from: State, s: State, w: nat) returns (run': seq<State>)
    requires Leads(run, from, s) && Inv(s) && w < |s.workers| && !s.stop && s.workers[w].own == 0
    requires s.workers[w].at == Entering && |s.shared| > 0
    ensures Leads(run', from, WithWorker(s, w, Polling(s, w))) && Inv(WithWorker(s, w, Polling(s, w)))
  {
    hide Leads, Inv, Order;
    var v := s.workers[w];
    ShapeOf(s, w);
    run' := WorkerGoesOn(run, from, s, w, SetFlag);
    var t := WithWorker(s, w, v.(at := CheckingStop, sleeping := true));
    run' := WorkerGoesOn(run', from, t, w, CheckStop);
    t := Again(s, t, w, v.(at := CheckingOwn, sleeping := true));
    run' := WorkerGoesOn(run', from, t, w, CheckOwn);
    t := Again(s, t, w, Polling(s, w));
  }

  /** A waiting worker with its flag up blocks. */
  lemma WaitsIdle(run: seq<State>, s: State, t: State, w: nat) returns (run': seq<State>)
    requires Leads(run, s, t) && Inv(t) && w < |t.workers|
    requires t.workers[w].at == Waiting && t.workers[w].sleeping && t.workers[w].mutex == Nobody
    ensures Leads(run', s, WithWorker(t, w, t.workers[w].(at := Blocked)))
  {
    hide Leads, Inv;
    var v := t.workers[w];
    InvShape(t);
    ShapeOf(t, w);
    run' := WorkerGoesOn(run, s, t, w, LockToWait);
    var t' := WithWorker(t, w, v.(at := Locked, mutex := TheWorker));
    run' := WorkerGoesOn(run', s, t', w, LoadToWait);
    t' := Again(t, t', w, v.(at := Sure, mutex := TheWorker));
    run' := WorkerGoesOn(run', s, t', w, Block);
    t' := Again(t, t', w, v.(at := Blocked));
  }

  lemma Again(s: State, t: State, w: nat, v: Worker) returns (t': State)
    requires w < |s.workers| == |t.workers| && t == WithWorker(s, w, t.workers[w])
    ensures t' == WithWorker(s, w, v) == WithWorker(t, w, v)
  {
    t' := WithWorker(s, w, v);
  }

  lemma InvShape(s: State)
    requires Inv(s)
    ensures Shape(s)
  {}

  lemma LeadsNowhere(s: State)
    ensures Leads([s], s, s)
  {}

  lemma ShapeOf(s: State, w: nat)
    requires Inv(s) && w < |s.workers|
    ensures |s.shared| > 0 && WorkerShape(s.workers[w], |s.shared|)
  {}

  /** The system while a notifier is busy with worker `w`, its first target. */
  ghost function Notifying(s: State, w: nat, v: Worker, id: nat, m: Notifier): State
    requires w < |s.workers|
  {
    s.(workers := s.workers[w := v], notifiers := s.notifiers[id := m])
  }

  lemma {:induction false} NotifierGoesOn(run: seq<State>, from: State, s: State, w: nat, v: Worker, id: nat, m: Notifier)
    returns (run': seq<State>)
    requires w < |s.workers| && Leads(run, from, Notifying(s, w, v, id, m)) && Inv(Notifying(s, w, v, id, m))
    requires |m.targets| > 0 && m.targets[0] == w && CanTell(v, m.phase) && Stays(v, m.phase)
    ensures var t' := Notifying(s, w, Told(v, id, m.phase), id, m.(phase := NextPhase(m.phase)));
      Leads(run', from, t') && Inv(t')
  {
    hide Leads, Inv, Told, CanTell, Stays, NextPhase;
    var t := Notifying(s, w, v, id, m);
    InvShape(t);
    assert Enabled(t, Tell(id));
    var t' := Apply(t, Tell(id));
    assert t' == Notifying(s, w, Told(v, id, m.phase), id, m.(phase := NextPhase(m.phase)));
    LeadsFurther(run, from, t, Tell(id));
    InvKept(t, Tell(id));
    run' := run + [t'];
  }

  /** The notification after a push wakes a blocked worker that it finds with its flag set, and ends there. */
  lemma NotifierWakes(run: seq<State>, from: State, s: State, w: nat, id: nat, m: Notifier) returns (run': seq<State>)
    requires w < |s.workers| && id !in s.notifiers && m.phase == Load && m.purpose != ForAll
    requires |m.targets| > 0 && m.targets[0] == w
    requires s.workers[w].at == Blocked && s.workers[w].sleeping && s.workers[w].mutex == Nobody
    requires Leads(run, from, Notifying(s, w, s.workers[w], id, m)) && Inv(Notifying(s, w, s.workers[w], id, m))
    ensures Leads(run', from, WithWorker(s, w, s.workers[w].(at := Waiting, sleeping := false)))
    ensures Inv(WithWorker(s, w, s.workers[w].(at := Waiting, sleeping := false)))
  {
    hide Leads, Inv;
    var v := s.workers[w];
    var held, cleared := v.(mutex := TheNotifier(id)), v.(sleeping := false);
    run' := NotifierGoesOn(run, from, s, w, v, id, m);
    run' := NotifierGoesOn(run', from, s, w, v, id, m.(phase := Lock));
    run' := NotifierGoesOn(run', from, s, w, held, id, m.(phase := Recheck));
    run' := NotifierGoesOn(run', from, s, w, held, id, m.(phase := Clear));
    var t := Notifying(s, w, cleared, id, m.(phase := Signal));
    InvShape(t);
    assert Enabled(t, Tell(id));
    LeadsFurther(run', from, t, Tell(id));
    InvKept(t, Tell(id));
    run' := run' + [Apply(t, Tell(id))];
    assert Apply(t, Tell(id)).notifiers == s.notifiers;
    assert Apply(t, Tell(id)) == WithWorker(s, w, v.(at := Waiting, sleeping := false));
  }

  /** A push to any node finds a sleeping worker it looks at first: afterwards the worker is awake with its
      flag cleared, the task is queued and the notification is over. */
  lemma {:induction false} PushWakesSleeper(s: State, w: nat, q: nat) returns (run: seq<State>)
    requires Inv(s) && w < |s.workers| && q < |s.shared|
    requires s.workers[w].at == Blocked && s.workers[w].sleeping && s.workers[w].mutex == Nobody
    ensures var t := WithWorker(s, w, s.workers[w].(at := Waiting, sleeping := false)).(
        shared := s.shared[q := s.shared[q] + 1], nextId := s.nextId + 1);
      Leads(run, s, t) && Inv(t)
  {
    hide Leads;
    var pushed := s.(shared := s.shared[q := s.shared[q] + 1], nextId := s.nextId + 1);
    var m := Notifier(ForNode(q), Order(w, |s.workers|), Load);
    assert Enabled(s, PushShared(q, w));
    LeadsNowhere(s);
    LeadsFurther([s], s, s, PushShared(q, w));
    InvKept(s, PushShared(q, w));
    hide Inv;
    assert Apply(s, PushShared(q, w)) == Notifying(pushed, w, pushed.workers[w], s.nextId, m);
    run := NotifierWakes([s] + [Apply(s, PushShared(q, w))], s, pushed, w, s.nextId, m);
  }

  /** So does a task pushed for the worker itself. */
  lemma {:induction false} OwnPushWakesSleeper(s: State, w: nat) returns (run: seq<State>)
    requires Inv(s) && w < |s.workers|
    requires s.workers[w].at == Blocked && s.workers[w].sleeping && s.workers[w].mutex == Nobody
    ensures var v := s.workers[w].(at := Waiting, sleeping := false, own := s.workers[w].own + 1);
      Leads(run, s, WithWorker(s, w, v).(nextId := s.nextId + 1)) && Inv(WithWorker(s, w, v).(nextId := s.nextId + 1))
  {
    hide Leads;
    var v := s.workers[w].(own := s.workers[w].own + 1);
    var pushed := WithWorker(s, w, v).(nextId := s.nextId + 1);
    var m := Notifier(ForWorker(w), [w], Load);
    assert Enabled(s, PushOwn(w));
    LeadsNowhere(s);
    LeadsFurther([s], s, s, PushOwn(w));
    InvKept(s, PushOwn(w));
    hide Inv;
    assert Apply(s, PushOwn(w)) == Notifying(pushed, w, v, s.nextId, m);
    run := NotifierWakes([s] + [Apply(s, PushOwn(w))], s, pushed, w, s.nextId, m);
    assert WithWorker(pushed, w, v.(at := Waiting, sleeping := false))
      == WithWorker(s, w, v.(at := Waiting, sleeping := false)).(nextId := s.nextId + 1);
  }

  // ----- Whoever is awake looks at everything again

  /** The first nonempty stealable queue going round from `node`, `i` steps away, is one shorter. */
  ghost predicate TookFirst(was: seq<nat>, now: seq<nat>, node: nat, i: nat) {
    && i < |was| && was[Around(node, i, |was|)] > 0
    && now == was[Around(node, i, |was|) := was[Around(node, i, |was|)] - 1]
    && forall k :: 0 <= k < i ==> was[Around(node, k, |was|)] == 0
  }

  /** Worker `w` has gone through the polling loop once and is busy: with nothing when the work has ended,
      else with a task of its own, else with one from the first nonempty queue going round from its node. */
  ghost predicate Polled(s: State, t: State, w: nat)
    requires w < |s.workers|
  {
    var v := s.workers[w];
    && |t.workers| == |s.workers|
    && t == WithWorker(s, w, v.(at := Busy, sleeping := false, own := t.workers[w].own)).(shared := t.shared)
    && if s.stop then t.workers[w].own == v.own && t.shared == s.shared
       else if v.own > 0 then t.workers[w].own == v.own - 1 && t.shared == s.shared
       else t.workers[w].own == 0 && exists i: nat :: TookFirst(s.shared, t.shared, v.node, i)
  }

  /** A worker does something, perhaps to a stealable queue. */
  lemma {:induction false} WorkerActs(run: seq<State>, s: State, t: State, w: nat, act: Act) returns (run': seq<State>)
    requires Leads(run, s, t) && Inv(t) && w < |t.workers| && CanAct(t.workers[w], t.shared, act)
    ensures var t' := WithWorker(t, w, Acted(t.workers[w], t.shared, t.stop, act)).(
        shared := SharedAfter(t.workers[w], t.shared, act));
      Leads(run', s, t') && Inv(t')
  {
    hide Leads, Inv, CanAct, Acted, SharedAfter;
    InvShape(t);
    var t' := Apply(t, Work(w, act));
    LeadsFurther(run, s, t, Work(w, act));
    InvKept(t, Work(w, act));
    run' := run + [t'];
  }

  /** The scan takes from the first nonempty queue it comes to; `i` queues have been found empty. */
  lemma {:induction false} ScanTakes(run: seq<State>, s: State, t: State, w: nat, i: nat, k: nat)
    returns (run': seq<State>, t': State)
    requires Leads(run, s, t) && Inv(t) && w < |t.workers| && i <= k < |t.shared|
    requires t.workers[w].at.Scan? && t.workers[w].node < |t.shared|
    requires t.workers[w].at.left == Order(t.workers[w].node, |t.shared|)[i..]
    requires t.shared[Around(t.workers[w].node, k, |t.shared|)] > 0
    requires forall j :: i <= j < k ==> t.shared[Around(t.workers[w].node, j, |t.shared|)] == 0
    ensures |t'.workers| == |t.workers| && Leads(run', s, t') && Inv(t')
    ensures t' == WithWorker(t, w, t.workers[w].(at := Leaving)).(shared := t'.shared)
    ensures var q := Around(t.workers[w].node, k, |t.shared|); t'.shared == t.shared[q := t.shared[q] - 1]
    decreases k - i
  {
    hide Leads, Inv, Order;
    var v := t.workers[w];
    ShapeOf(t, w);
    FirstInOrder(v.node, |t.shared|, i);
    var left := v.at.left;
    run' := WorkerActs(run, s, t, w, ScanNode);
    if i == k {
      t' := WithWorker(t, w, v.(at := Leaving)).(shared := t.shared[left[0] := t.shared[left[0]] - 1]);
    } else {
      var t1 := WithWorker(t, w, v.(at := Scan(left[1..])));
      assert left[1..] == Order(v.node, |t.shared|)[i + 1..];
      run', t' := ScanTakes(run', s, t1, w, i + 1, k);
    }
  }

  lemma FirstInOrder(node: nat, n: nat, i: nat)
    requires node < n && i < n
    ensures |Order(node, n)[i..]| == n - i && Order(node, n)[i..][0] == Around(node, i, n)
  {}

  /** The first nonempty queue. */
  lemma {:induction false} FirstNonempty(shared: seq<nat>, node: nat, i: nat) returns (k: nat)
    requires node < |shared| && i <= |shared| && forall j :: 0 <= j < i ==> shared[Around(node, j, |shared|)] == 0
    requires exists q :: 0 <= q < |shared| && shared[q] > 0
    ensures k < |shared| && shared[Around(node, k, |shared|)] > 0
    ensures forall j :: 0 <= j < k ==> shared[Around(node, j, |shared|)] == 0
    decreases |shared| - i
  {
    if i == |shared| {
      var q :| 0 <= q < |shared| && shared[q] > 0;
      var j := Reached(node, q, |shared|);
      assert false;
    } else if shared[Around(node, i, |shared|)] > 0 {
      k := i;
    } else {
      k := FirstNonempty(shared, node, i + 1);
    }
  }

  /** Once round the loop, from the place where the flag is set. */
  lemma PollingTakes(run: seq<State>, from: State, s: State, w: nat) returns (run': seq<State>, t: State)
    requires Leads(run, from, s) && Inv(s) && w < |s.workers| && SomethingToDo(s, w) && s.workers[w].at == Entering
    ensures Leads(run', from, t) && Inv(t) && Polled(s, t, w)
  {
    hide Leads, Inv, Order, TookFirst;
    var v := s.workers[w];
    ShapeOf(s, w);
    run' := WorkerActs(run, from, s, w, SetFlag);
    t := WithWorker(s, w, v.(at := CheckingStop, sleeping := true));
    run' := WorkerActs(run', from, t, w, CheckStop);
    if s.stop {
      t := Again(s, t, w, v.(at := Leaving, sleeping := true));
    } else {
      t := Again(s, t, w, v.(at := CheckingOwn, sleeping := true));
      run' := WorkerActs(run', from, t, w, CheckOwn);
      if v.own > 0 {
        t := Again(s, t, w, v.(at := Leaving, sleeping := true, own := v.own - 1));
      } else {
        t := Again(s, t, w, v.(at := Scan(Order(v.node, |s.shared|)), sleeping := true));
        run', t := ScanFinds(run', from, s, t, w);
      }
    }
    var t0 := t;
    ShapeOf(t0, w);
    run' := WorkerActs(run', from, t0, w, ResetFlag);
    t := WithWorker(t0, w, t0.workers[w].(at := Busy, sleeping := false));
  }

  lemma {:induction false} ScanFinds(run: seq<State>, from: State, s: State, t: State, w: nat)
    returns (run': seq<State>, t': State)
    requires w < |s.workers| && Leads(run, from, t) && Inv(t) && (exists q :: 0 <= q < |s.shared| && s.shared[q] > 0)
    requires s.workers[w].node < |s.shared|
    requires var v := s.workers[w];
      t == WithWorker(s, w, v.(at := Scan(Order(v.node, |s.shared|)), sleeping := true))
    ensures Leads(run', from, t') && Inv(t')
    ensures t' == WithWorker(s, w, s.workers[w].(at := Leaving, sleeping := true)).(shared := t'.shared)
    ensures exists i: nat :: TookFirst(s.shared, t'.shared, s.workers[w].node, i)
  {
    hide Leads, Inv, Order;
    var v := s.workers[w];
    var k := FirstNonempty(s.shared, v.node, 0);
    assert Order(v.node, |s.shared|)[0..] == Order(v.node, |s.shared|);
    run', t' := ScanTakes(run, from, t, w, 0, k);
    assert TookFirst(s.shared, t'.shared, v.node, k);
  }

  /** A worker that was woken looks at everything again: it takes what is there for it, and is busy. */
  lemma WokenWorkerTakes(run: seq<State>, from: State, s: State, w: nat) returns (run': seq<State>, t: State)
    requires Leads(run, from, s) && Inv(s) && w < |s.workers| && SomethingToDo(s, w)
    requires s.workers[w].at == Waiting && !s.workers[w].sleeping && s.workers[w].mutex == Nobody
    ensures Leads(run', from, t) && Inv(t) && Polled(s, t, w)
  {
    hide Leads, Inv;
    var v := s.workers[w];
    ShapeOf(s, w);
    run' := WorkerActs(run, from, s, w, LockToWait);
    var u := WithWorker(s, w, v.(at := Locked, mutex := TheWorker));
    run' := WorkerActs(run', from, u, w, LoadToWait);
    u := Again(s, u, w, v.(at := Entering));
    run', t := PollingTakes(run', from, u, w);
  }

  /** So does a busy worker that enters the loop. */
  lemma BusyWorkerTakes(s: State, w: nat) returns (run: seq<State>, t: State)
    requires Inv(s) && w < |s.workers| && SomethingToDo(s, w) && s.workers[w].at == Busy
    ensures Leads(run, s, t) && Inv(t) && Polled(s, t, w)
  {
    hide Leads, Inv;
    ShapeOf(s, w);
    LeadsNowhere(s);
    run := WorkerActs([s], s, s, w, Enter);
    run, t := PollingTakes(run, s, WithWorker(s, w, s.workers[w].(at := Entering)), w);
  }

  /** With nothing to do it goes back to sleep, after having looked everywhere. */
  lemma WokenWorkerSleeps(run: seq<State>, from: State, s: State, w: nat) returns (run': seq<State>)
    requires Leads(run, from, s) && Inv(s) && w < |s.workers| && !SomethingToDo(s, w)
    requires s.workers[w].at == Waiting && !s.workers[w].sleeping && s.workers[w].mutex == Nobody
    ensures Leads(run', from, WithWorker(s, w, s.workers[w].(at := Blocked, sleeping := true)))
  {
    hide Leads, Inv;
    var v := s.workers[w];
    ShapeOf(s, w);
    run' := WorkerActs(run, from, s, w, LockToWait);
    var t := WithWorker(s, w, v.(at := Locked, mutex := TheWorker));
    run' := WorkerActs(run', from, t, w, LoadToWait);
    t := Again(s, t, w, v.(at := Entering));
    run' := LooksAndSleeps(run', from, t, w);
    t := Again(s, t, w, v.(at := Blocked, sleeping := true));
  }

  /** A push answered: a worker asleep at the head of the search wakes up and takes a task. Whatever else is
      queued, the task taken is one of its own, or from the first nonempty queue going round. */
  lemma PushIsAnswered(s: State, w: nat, q: nat) returns (run: seq<State>, t: State)
    requires Inv(s) && w < |s.workers| && q < |s.shared| && !s.stop
    requires s.workers[w].at == Blocked && s.workers[w].sleeping && s.workers[w].mutex == Nobody
    ensures Leads(run, s, t) && Inv(t)
    ensures Polled(s.(shared := s.shared[q := s.shared[q] + 1], nextId := s.nextId + 1), t, w)
  {
    hide Leads, Inv;
    run := PushWakesSleeper(s, w, q);
    var pushed := s.(shared := s.shared[q := s.shared[q] + 1], nextId := s.nextId + 1);
    var awake := WithWorker(pushed, w, s.workers[w].(at := Waiting, sleeping := false));
    assert pushed.shared[q] > 0;
    run, t := WokenWorkerTakes(run, s, awake, w);
  }

  /** The same for a task pushed for the worker itself, which it takes. */
  lemma OwnPushIsAnswered(s: State, w: nat) returns (run: seq<State>, t: State)
    requires Inv(s) && w < |s.workers| && !s.stop
    requires s.workers[w].at == Blocked && s.workers[w].sleeping && s.workers[w].mutex == Nobody
    ensures Leads(run, s, t) && Inv(t)
    ensures t == WithWorker(s, w, s.workers[w].(at := Busy, sleeping := false)).(nextId := s.nextId + 1)
  {
    hide Leads, Inv;
    run := OwnPushWakesSleeper(s, w);
    var v := s.workers[w].(at := Waiting, sleeping := false, own := s.workers[w].own + 1);
    var awake := WithWorker(s, w, v).(nextId := s.nextId + 1);
    run, t := WokenWorkerTakes(run, s, awake, w);
  }

  // ----- Tasks do not appear or vanish

  ghost function Sum(ns: seq<nat>): nat {
    if |ns| == 0 then 0 else Sum(ns[..|ns| - 1]) + ns[|ns| - 1]
  }

  lemma {:induction false} SumUpdate(ns: seq<nat>, i: nat, x: nat)
    requires i < |ns|
    ensures Sum(ns[i := x]) + ns[i] == Sum(ns) + x
  {
    var m := |ns| - 1;
    if i == m {
      assert ns[i := x][..m] == ns[..m];
    } else {
      SumUpdate(ns[..m], i, x);
      assert ns[i := x][..m] == ns[..m][i := x];
    }
  }

  ghost function OwnLengths(s: State): (ns: seq<nat>)
    ensures |ns| == |s.workers| && forall w :: 0 <= w < |ns| ==> ns[w] == s.workers[w].own
  {
    seq(|s.workers|, w requires 0 <= w < |s.workers| => s.workers[w].own)
  }

  /** How many tasks are queued. */
  ghost function Queued(s: State): nat {
    Sum(OwnLengths(s)) + Sum(s.shared)
  }

  /** A step that takes a task, which its worker then has in hand. */
  ghost predicate TakesTask(s: State, step: Step)
    requires Enabled(s, step)
  {
    step.Work? &&
    match step.act
    case TakeOwn => true
    case TakeShared(_) => true
    case CheckOwn => s.workers[step.w].own > 0
    case ScanNode => s.shared[s.workers[step.w].at.left[0]] > 0
    case _ => false
  }

  /** A push queues one task, a step that takes one removes one, and no other step changes how many there are.
      Whoever has taken a task in the loop leaves it. */
  lemma QueuedAfter(s: State, step: Step)
    requires Enabled(s, step)
    ensures TakesTask(s, step) ==> Queued(s) == Queued(Apply(s, step)) + 1
    ensures !TakesTask(s, step) ==> Queued(Apply(s, step)) == Queued(s) + if step.PushShared? || step.PushOwn? then 1 else 0
    ensures TakesTask(s, step) ==> Apply(s, step).workers[step.w].at in {Busy, Leaving}
  {
    match step {
      case Work(w, act) => WorkTakes(s, w, act);
      case Tell(n) => assert OwnLengths(Apply(s, step)) == OwnLengths(s);
      case PushShared(q, start) =>
        assert OwnLengths(Apply(s, step)) == OwnLengths(s);
        SumUpdate(s.shared, q, s.shared[q] + 1);
      case PushOwn(w) =>
        assert OwnLengths(Apply(s, step)) == OwnLengths(s)[w := s.workers[w].own + 1];
        SumUpdate(OwnLengths(s), w, s.workers[w].own + 1);
      case StopAll => assert OwnLengths(Apply(s, step)) == OwnLengths(s);
    }
  }

  lemma WorkTakes(s: State, w: nat, act: Act)
    requires Enabled(s, Work(w, act))
    ensures Queued(s) == Queued(Apply(s, Work(w, act))) + if TakesTask(s, Work(w, act)) then 1 else 0
    ensures TakesTask(s, Work(w, act)) ==> Apply(s, Work(w, act)).workers[w].at in {Busy, Leaving}
  {
    hide Sum, Order;
    var v, s' := s.workers[w], Apply(s, Work(w, act));
    assert OwnLengths(s') == OwnLengths(s)[w := s'.workers[w].own];
    SumUpdate(OwnLengths(s), w, s'.workers[w].own);
    if act.TakeShared? {
      SumUpdate(s.shared, act.q, s.shared[act.q] - 1);
    } else if act.ScanNode? && s.shared[v.at.left[0]] > 0 {
      SumUpdate(s.shared, v.at.left[0], s.shared[v.at.left[0]] - 1);
    }
  }
}
