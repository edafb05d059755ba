/** The concurrency limit of a process task. Commands beyond the limit are parked and committed in the
    order in which they came. */
module Throttle {
  import opened TaskGraph

  /** `requests` and `commits` record, in order, the commands handed in and those passed on to the
      scheduler; `notified` counts the commands that have reported their completion. */
  datatype Limit = Limit(max: nat, remaining: nat, parked: seq<TaskId>,
                         requests: seq<TaskId>, commits: seq<TaskId>, notified: nat)

  function Fresh(max: nat): Limit {
    Limit(max, max, [], [], [], 0)
  }

  /** commit_process_command. */
  function Request(l: Limit, t: TaskId): Limit {
    if l.remaining == 0 then l.(parked := l.parked + [t], requests := l.requests + [t])
    else l.(remaining := l.remaining - 1, requests := l.requests + [t], commits := l.commits + [t])
  }

  /** The loop of notify_completion. */
  function Refill(l: Limit): Limit
    decreases |l.parked|
  {
    if |l.parked| == 0 || l.remaining == 0 then l
    else Refill(l.(remaining := l.remaining - 1, parked := l.parked[1..], commits := l.commits + [l.parked[0]]))
  }

  /** notify_completion. */
  function Notified(l: Limit): Limit {
    Refill(l.(remaining := l.remaining + 1, notified := l.notified + 1))
  }

  /** Nothing is lost: what is not available is in use. Commands leave in the order in which they came,
      and one is parked only while the limit is used up. */
  ghost predicate Conserved(l: Limit) {
    && l.remaining + (|l.commits| - l.notified) == l.max
    && l.notified <= |l.commits|
    && l.requests == l.commits + l.parked
    && (|l.parked| > 0 ==> l.remaining == 0)
  }

  lemma RequestConserves(l: Limit, t: TaskId)
    requires Conserved(l)
    ensures Conserved(Request(l, t))
    ensures Request(l, t).commits == l.commits || Request(l, t).commits == l.commits + [t]
  {
    assert l.commits + (l.parked + [t]) == l.commits + l.parked + [t];
  }

  /** A completion lets exactly the longest waiting command go. */
  lemma NotifiedConserves(l: Limit)
    requires Conserved(l) && l.notified < |l.commits|
    ensures Conserved(Notified(l))
    ensures Notified(l).commits == l.commits + l.parked[..if |l.parked| > 0 then 1 else 0]
    ensures Notified(l).parked == l.parked[if |l.parked| > 0 then 1 else 0..]
    ensures Notified(l).requests == l.requests && Notified(l).notified == l.notified + 1
    ensures Notified(l).max == l.max
  {
    if |l.parked| > 0 {
      assert l.commits + l.parked == l.commits + [l.parked[0]] + l.parked[1..];
      var next := l.(remaining := 0, notified := l.notified + 1, parked := l.parked[1..],
                     commits := l.commits + [l.parked[0]]);
      assert Refill(next) == next;
    }
  }

  /** With a positive limit a parked command always waits for an earlier one that is still running. */
  lemma ParkedWaitsForEarlier(l: Limit)
    requires Conserved(l)
    ensures l.max > 0 && |l.parked| > 0 ==> l.notified < |l.commits| && l.commits <= l.requests
    ensures l.max > 0 && l.notified == |l.commits| ==> l.parked == [] && l.commits == l.requests
  {
    assert l.requests[..|l.commits|] == l.commits;
  }

  // ----- Any sequence of calls

  datatype Call = Hand(t: TaskId) | Done

  function Do(l: Limit, call: Call): Limit {
    match call
    case Hand(t) => Request(l, t)
    case Done => Notified(l)
  }

  function After(max: nat, calls: seq<Call>): Limit {
    if |calls| == 0 then Fresh(max) else Do(After(max, calls[..|calls| - 1]), calls[|calls| - 1])
  }

  /** The commands handed in, in order. */
  ghost function Handed(calls: seq<Call>): seq<TaskId> {
    if |calls| == 0 then [] else
      Handed(calls[..|calls| - 1]) + if calls[|calls| - 1].Hand? then [calls[|calls| - 1].t] else []
  }

  /** Only committed commands complete. */
  ghost predicate Proper(max: nat, calls: seq<Call>) {
    forall i :: 0 <= i < |calls| && calls[i].Done? ==>
      After(max, calls[..i]).notified < |After(max, calls[..i]).commits|
  }

  /** The limit holds after every sequence of calls, and with a limit of zero no command ever gets
      through. */
  lemma {:induction false} EveryRunConserves(max: nat, calls: seq<Call>)
    requires Proper(max, calls)
    ensures Conserved(After(max, calls)) && After(max, calls).max == max
    ensures max == 0 ==> After(max, calls).commits == []
    ensures After(max, calls).requests == Handed(calls) && After(max, calls).notified + |Handed(calls)| == |calls|
  {
    if |calls| == 0 {
    } else {
      var front, last := calls[..|calls| - 1], calls[|calls| - 1];
      forall i | 0 <= i < |front| && front[i].Done?
        ensures After(max, front[..i]).notified < |After(max, front[..i]).commits|
      {
        assert front[..i] == calls[..i];
      }
      EveryRunConserves(max, front);
      var l := After(max, front);
      match last {
        case Hand(t) => RequestConserves(l, t);
        case Done => NotifiedConserves(l);
      }
    }
  }

  // ----- The object

  class ProcessThrottle {
    const max: nat
    var remaining: nat
    var parked: seq<TaskId>
    ghost var requests: seq<TaskId>
    ghost var commits: seq<TaskId>
    ghost var notified: nat

    ghost function State(): Limit
      reads this
    {
      Limit(max, remaining, parked, requests, commits, notified)
    }

    constructor (limit: nat)
      ensures State() == Fresh(limit) && Conserved(State())
    {
      max, remaining, parked := limit, limit, [];
      requests, commits, notified := [], [], 0;
    }

    /** Returns the commands to commit. */
    method CommitProcessCommand(t: TaskId) returns (committed: seq<TaskId>)
      requires Conserved(State())
      modifies this
      ensures State() == Request(old(State()), t) && Conserved(State())
      ensures commits == old(commits) + committed && requests == old(requests) + [t] && notified == old(notified)
      ensures committed == if old(remaining) == 0 then [] else [t]
    {
      RequestConserves(State(), t);
      requests := requests + [t];
      if remaining == 0 {
        parked := parked + [t];
        committed := [];
      } else {
        remaining := remaining - 1;
        committed := [t];
        commits := commits + [t];
      }
    }

    /** Returns the commands to commit. */
    method NotifyCompletion() returns (committed: seq<TaskId>)
      requires Conserved(State()) && notified < |commits|
      modifies this
      ensures State() == Notified(old(State())) && Conserved(State())
      ensures committed == old(parked)[..if |old(parked)| > 0 then 1 else 0] && commits == old(commits) + committed
      ensures requests == old(requests) && notified == old(notified) + 1
    {
      ghost var l := State();
      NotifiedConserves(l);
      remaining := remaining + 1;
      notified := notified + 1;
      committed := [];
      while |parked| > 0 && remaining > 0
        invariant Refill(State()) == Notified(l) && max == l.max
        invariant commits == l.commits + committed
        decreases |parked|
      {
        assert commits + [parked[0]] == l.commits + (committed + [parked[0]]);
        remaining := remaining - 1;
        committed := committed + [parked[0]];
        commits := commits + [parked[0]];
        parked := parked[1..];
      }
      assert l.commits + committed == l.commits + l.parked[..if |l.parked| > 0 then 1 else 0];
      assert committed == commits[|l.commits|..];
    }
  }
}
