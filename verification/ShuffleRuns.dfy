/** The physical tasks of a shuffle that are added while the graph runs: partition tasks between the entry and
    the barrier, and, from the code of the barrier, sort tasks between the barrier and the terminal. */
module ShuffleRuns {
  import opened TaskGraph
  import opened ProcessRuns
  import SR = SchedulerRuns

  /** A task that has been created and is not yet committed. */
  ghost predicate Uncommitted(s: SR.State, t: TaskId) {
    t < s.core.created && t !in s.counted
  }

  /** `last` cannot be released before `sponsor` has completed, which is still live. */
  ghost predicate HeldOpen(s: SR.State, sponsor: TaskId, last: TaskId) {
    sponsor in s.core.vertices && (sponsor, last) in s.deps
  }

  /** As long as the sponsor is live, the two dependencies and the commit of a task between `first` and `last`
      can be added. The sponsor is the barrier for a sort task, and a producer's terminal for a partition
      task. */
  lemma AddedInTime(s: SR.State, sponsor: TaskId, first: TaskId, t: TaskId, last: TaskId)
    requires SR.Inv(s) && HeldOpen(s, sponsor, last) && Uncommitted(s, t) && first < s.core.created
    ensures last !in s.released
    ensures SR.Enabled(s, SR.Depend(first, t)) && SR.Enabled(s, SR.Depend(t, last)) && SR.Enabled(s, SR.CountCommit(t))
  {
    hide SR.Inv;
    LiveFacts(s, sponsor);
    LiveFacts(s, t);
    IdFacts(s, sponsor, last);
    if last in s.released {
      ReleasedFacts(s, last);
    }
    UnreleasedFacts(s, last);
  }

  /** That stays so whatever else happens: only the sponsor's completion and the task's own commit end it. */
  lemma StaysInTime(s: SR.State, step: SR.Step, sponsor: TaskId, t: TaskId, last: TaskId)
    requires SR.Inv(s) && SR.Enabled(s, step) && HeldOpen(s, sponsor, last) && Uncommitted(s, t)
    requires step != SR.EraseTask(sponsor) && step != SR.CountCommit(t)
    ensures HeldOpen(SR.Apply(s, step), sponsor, last) && Uncommitted(SR.Apply(s, step), t)
  {
    hide SR.Inv, SR.Apply, SR.Enabled;
    SchedFacts(s, step);
    RecordFacts(s, step);
    VertexFacts(s, step, sponsor);
  }

  /** A task added between `first` and `last` runs after the one and before the other. */
  lemma RunsBetween(s: SR.State, first: TaskId, t: TaskId, last: TaskId)
    requires SR.Inv(s) && (t, last) in s.deps && (first in s.completed || (first, t) in s.deps)
    ensures t in s.released ==> first in s.completed
    ensures last in s.released ==> t in s.completed
  {
    hide SR.Inv;
    if t in s.released {
      ReleasedFacts(s, t);
    }
    if last in s.released {
      ReleasedFacts(s, last);
    }
  }

  /** So no partition is sorted before all its fragments have been partitioned, and the terminal waits for
      every sort. `part` is a partition task, `sort` a sort task. */
  lemma SortsAfterPartitions(s: SR.State, entry: TaskId, part: TaskId, barrier: TaskId, sort: TaskId, terminal: TaskId)
    requires SR.Inv(s) && (part, barrier) in s.deps && (barrier, sort) in s.deps && (sort, terminal) in s.deps
    requires entry in s.completed || (entry, part) in s.deps
    ensures sort in s.released ==> part in s.completed && entry in s.completed
    ensures terminal in s.released ==> sort in s.completed
  {
    hide SR.Inv;
    RunsBetween(s, barrier, sort, terminal);
    RunsBetween(s, entry, part, barrier);
    LiveFacts(s, barrier);
    LiveFacts(s, part);
  }
}
