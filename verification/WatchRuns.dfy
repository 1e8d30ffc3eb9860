/** How long a watch lasts in a run of the whole protocol, on an ideal clock. */
module WatchRuns {
  import opened Wrappers
  import Reports
  import Reassembly
  import opened StackContext
  import opened Supervision
  import opened NoOverlap
  import opened LastHeard
  import Liveness

  /** When a step that has a time is taken; a poll is taken when it is due. */
  function TimeOf(m: Machine, step: Step): Option<Time>
    requires Enabled(m, step)
  {
    match step
    case Establish(_, _, _, now) => Some(now)
    case Deliver(_, _, now) => Some(now)
    case Poll(t) => Some(PollTime(m.tasks[t].phase))
    case _ => None
  }

  function Clock(types: Reports.AttrTypes, steps: seq<Step>): Time
    requires After(types, steps).Some?
  {
    if steps == [] then 0
    else
      var front := steps[..|steps| - 1];
      TimeOf(After(types, front).value, steps[|steps| - 1]).GetOr(Clock(types, front))
  }

  /** Time never runs backwards; so no poll is passed over. */
  predicate InTime(types: Reports.AttrTypes, steps: seq<Step>)
    requires After(types, steps).Some?
  {
    steps != [] ==>
      var front := steps[..|steps| - 1];
      InTime(types, front) &&
      TimeOf(After(types, front).value, steps[|steps| - 1]).GetOr(Clock(types, front)) >= Clock(types, front)
  }

  /** The last poll of a watch found its node's entry younger than the deadline. */
  predicate Watched(m: Machine, task: Task) {
    task.phase.Watching? ==>
      && task.node in m.sh.liveness
      && task.phase.since + task.phase.polls * Liveness.POLL
           < m.sh.liveness[task.node] + Liveness.Deadline(task.phase.maxInterval)
  }

  ghost predicate AllWatched(m: Machine) {
    forall t :: t in m.tasks ==> Watched(m, m.tasks[t])
  }

  ghost predicate EntriesBelow(m: Machine, clock: Time) {
    forall n :: n in m.sh.liveness ==> m.sh.liveness[n] <= clock
  }

  lemma {:induction false} DeliveryHears(types: Reports.AttrTypes, m: Machine, from: Source, report: Reports.Report,
      now: Time)
    ensures var after := Delivered(types, m, from, report, now).sh.liveness;
            after == if Accepts(m.sh, from) then m.sh.liveness[from.node := now] else m.sh.liveness
  {
    hide Reassembly.Absorbing, NoteAll, NewOnes, NodeEvents, Batch;
  }

  lemma {:induction false} EntriesStayBelow(types: Reports.AttrTypes, m: Machine, step: Step, clock: Time)
    requires Enabled(m, step) && EntriesBelow(m, clock) && TimeOf(m, step).GetOr(clock) >= clock
    ensures EntriesBelow(Next(types, m, step), TimeOf(m, step).GetOr(clock))
  {
    hide NoteAll, FoundSilent, Polled, Cancelled, Delivered, Snapshot, Reports.ApplyAll, Reports.Changes;
    if step.Poll? {
      PollOutcome(m, step.task);
    } else if step.Deliver? {
      DeliveryHears(types, m, step.from, step.report, step.now);
    }
  }

  /** The one begun task of a node is what its entry speaks of. */
  lemma {:induction false} TaskWatched(types: Reports.AttrTypes, m: Machine, step: Step, clock: Time, t: TaskId)
    requires Inv(m) && AllAgree(m) && Alone(m) && Enabled(m, step) && Alone(Next(types, m, step))
    requires AllWatched(m) && EntriesBelow(m, clock) && TimeOf(m, step).GetOr(clock) >= clock
    requires ByTask(step) && t in Next(types, m, step).tasks
    ensures Watched(Next(types, m, step), Next(types, m, step).tasks[t])
  {
    hide Next, EntriesGuarded, HandlesMatch, HistoryMatches;
    var after := Next(types, m, step);
    TaskLeavesTasks(types, m, step);
    if t == step.task {
      assert Watched(m, m.tasks[t]) && Agrees(m, m.tasks[t]);
      OwnWatch(types, m, step);
    } else if Begun(m, t) && (step.Begin? || Begun(m, step.task)) {
      OneNodeEach(types, m, step, t);
      TaskLeavesLiveness(types, m, step, m.tasks[t].node);
      assert Watched(m, m.tasks[t]);
    } else if Begun(m, t) {
      UnbegunLeavesAll(types, m, step);
      assert Watched(m, m.tasks[t]);
    }
  }

  lemma {:induction false} OwnWatch(types: Reports.AttrTypes, m: Machine, step: Step)
    requires Enabled(m, step) && ByTask(step) && Watched(m, m.tasks[step.task])
    ensures var after := Next(types, m, step); step.task in after.tasks ==> Watched(after, after.tasks[step.task])
  {
    hide NoteAll, Polled, Snapshot, Reports.ApplyAll, Reports.Changes;
    if step.Poll? {
      PollKeeps(m, step.task);
      PollOutcome(m, step.task);
    }
  }

  lemma {:induction false} TaskLeavesLiveness(types: Reports.AttrTypes, m: Machine, step: Step, n: Reassembly.NodeId)
    requires Enabled(m, step) && ByTask(step) && m.tasks[step.task].node != n
    ensures var after := Next(types, m, step).sh.liveness;
            (n in after <==> n in m.sh.liveness) && (n in after ==> after[n] == m.sh.liveness[n])
  {
    hide NoteAll, FoundSilent, Polled, Snapshot, Reports.ApplyAll, Reports.Changes;
    if step.Poll? {
      PollOutcome(m, step.task);
    }
  }

  /** The other steps can only make an entry younger. */
  lemma {:induction false} OthersKeepWatches(types: Reports.AttrTypes, m: Machine, step: Step, clock: Time)
    requires HandlesMatch(m) && Enabled(m, step) && !ByTask(step) && AllWatched(m)
    requires EntriesBelow(m, clock) && TimeOf(m, step).GetOr(clock) >= clock
    ensures AllWatched(Next(types, m, step))
  {
    hide Cancelled, Delivered;
    var after := Next(types, m, step);
    match step {
      case Deliver(from, report, now) =>
        DeliveryHears(types, m, from, report, now);
        DeliveryKeeps(types, m, from, report, now);
      case Start(n) => CancelledTasks(m.tasks, m.running, n);
      case Stop(n) => CancelledTasks(m.tasks, m.running, n);
      case Shutdown =>
    }
  }

  lemma {:induction false} WatchesKept(types: Reports.AttrTypes, m: Machine, step: Step, clock: Time)
    requires Inv(m) && AllAgree(m) && Alone(m) && Enabled(m, step) && Alone(Next(types, m, step))
    requires AllWatched(m) && EntriesBelow(m, clock) && TimeOf(m, step).GetOr(clock) >= clock
    ensures AllWatched(Next(types, m, step))
  {
    hide Next, Enabled, AllAgree, Alone, Watched, EntriesGuarded, HistoryMatches;
    if ByTask(step) {
      forall t | t in Next(types, m, step).tasks ensures Watched(Next(types, m, step), Next(types, m, step).tasks[t]) {
        TaskWatched(types, m, step, clock, t);
      }
    } else {
      OthersKeepWatches(types, m, step, clock);
    }
  }

  lemma {:induction false} WatchesInARun(types: Reports.AttrTypes, steps: seq<Step>)
    requires AlwaysAlone(types, steps) && InTime(types, steps)
    ensures AllWatched(After(types, steps).value) && EntriesBelow(After(types, steps).value, Clock(types, steps))
  {
    hide Next, Inv, Alone, AllAgree, SourcesOwned, BatchesUnmixed, Orderly, EntriesUp, AllWatched, EntriesBelow, TimeOf;
    if steps == [] {
      NothingWatched();
    } else {
      var front, step := steps[..|steps| - 1], steps[|steps| - 1];
      var m := After(types, front).value;
      WatchesInARun(types, front);
      WithoutOverlap(types, front);
      ReachableInv(types, front);
      WatchesKept(types, m, step, Clock(types, front));
      EntriesStayBelow(types, m, step, Clock(types, front));
    }
  }

  lemma NothingWatched()
    ensures AllWatched(INITIAL) && EntriesBelow(INITIAL, 0)
  {
  }

  /** Without overlap and on an ideal clock: a task looks every five seconds, and gives its
      subscription up exactly when its node was last heard of as long ago as the interval it
      was granted and 15 seconds more, less than five seconds after that. So a subscription
      whose silences are all shorter is never given up, and one gone silent always is. */
  lemma {:induction false} WatchEnds(types: Reports.AttrTypes, steps: seq<Step>, t: TaskId)
    requires AlwaysAlone(types, steps) && InTime(types, steps) && Enabled(After(types, steps).value, Poll(t))
    ensures var m := After(types, steps).value;
            var task, after := m.tasks[t], Next(types, m, Poll(t)).tasks[t];
            var granted := task.phase.maxInterval;
            var look := task.phase.since + (task.phase.polls + 1) * 5 * Liveness.SECOND;
            && task.node in Heard(types, steps)
            && (after.phase.Establishing? <==>
                  Heard(types, steps)[task.node] + (granted + 15) * Liveness.SECOND <= look)
            && (!after.phase.Establishing? ==> after.phase == task.phase.(polls := task.phase.polls + 1))
            && look < Heard(types, steps)[task.node] + (granted + 15 + 5) * Liveness.SECOND
  {
    hide After, Alone, AllAgree, SourcesOwned, BatchesUnmixed, Orderly, EntriesUp, InTime, Heard, Polled;
    var m := After(types, steps).value;
    WatchesInARun(types, steps);
    WithoutOverlap(types, steps);
    EntryIsLastHeard(types, steps);
    assert Watched(m, m.tasks[t]);
    TaskHasEntry(m, t);
    PollOutcome(m, t);
  }

  lemma TaskHasEntry(m: Machine, t: TaskId)
    requires AllAgree(m) && t in m.tasks && m.tasks[t].phase.Watching?
    ensures m.tasks[t].node in m.sh.subs
  {
  }
}
