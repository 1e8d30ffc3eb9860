/** What a priming snapshot holds, in a whole run of the protocol. */
module Priming {
  import Reports
  import opened Reassembly
  import opened StackContext
  import opened Supervision
  import NoOverlap
  import Chunking

  /** The attribute reports of all chunks primed in attempt `i`. */
  function PrimedIn(types: Reports.AttrTypes, steps: seq<Step>, i: nat): seq<Reports.AttrReport>
    requires After(types, steps).Some?
  {
    if steps == [] then []
    else
      var front, step := steps[..|steps| - 1], steps[|steps| - 1];
      var m, before := After(types, front).value, PrimedIn(types, front, i);
      if step.Prime? && m.tasks[step.task].phase.inst == i then before + AttrsOf(step.chunk) else before
  }

  predicate InAttempt(m: Machine, t: TaskId) {
    t in m.tasks && m.tasks[t].phase.Establishing?
  }

  /** No two tasks are in the same attempt. */
  ghost predicate AttemptsApart(m: Machine) {
    forall t, u :: InAttempt(m, t) && InAttempt(m, u) && m.tasks[t].phase.inst == m.tasks[u].phase.inst ==> t == u
  }

  /** What attempt `i` has accumulated. */
  function Primings(types: Reports.AttrTypes, primed: seq<Reports.AttrReport>): seq<Reports.Pair> {
    Reports.ApplyAll([], Reports.Changes(types, primed))
  }

  ghost predicate Accumulated(types: Reports.AttrTypes, steps: seq<Step>)
    requires After(types, steps).Some?
  {
    var m := After(types, steps).value;
    && (forall t :: t in m.tasks && m.tasks[t].phase.Establishing? ==>
          m.tasks[t].phase.acc == Primings(types, PrimedIn(types, steps, m.tasks[t].phase.inst)))
    && (forall i :: i >= m.next ==> PrimedIn(types, steps, i) == [])
  }

  lemma {:induction false} ApartKept(types: Reports.AttrTypes, m: Machine, step: Step)
    requires AttemptsApart(m) && NoOverlap.AttemptsBelow(m) && Enabled(m, step)
    ensures AttemptsApart(Next(types, m, step))
  {
    hide NoteAll, FoundSilent, Polled, Clear, Own, Lose, Released, Cancelled, Delivered, Snapshot,
      Reports.ApplyAll, Reports.Changes;
    if step.Poll? {
      PollKeeps(m, step.task);
      PollOutcome(m, step.task);
    }
    match step {
      case Start(_) => CancelledTasks(m.tasks, m.running, step.node);
      case Stop(_) => CancelledTasks(m.tasks, m.running, step.node);
      case Deliver(from, report, now) => DeliveryKeeps(types, m, from, report, now);
      case _ =>
    }
  }

  /** A task in an attempt after a step was in it before, unless the step began it, and only
      its own priming changed what it accumulated. */
  lemma {:induction false} AttemptStep(types: Reports.AttrTypes, m: Machine, step: Step, t: TaskId)
    requires Enabled(m, step)
    requires var after := Next(types, m, step); t in after.tasks && after.tasks[t].phase.Establishing?
    ensures var after := Next(types, m, step);
            var phase := after.tasks[t].phase;
            || (phase == Establishing(m.next, []) && !step.Prime?)
            || (t in m.tasks && m.tasks[t].phase == phase && !(step.Prime? && step.task == t))
            || (step.Prime? && step.task == t && m.tasks[t].phase.inst == phase.inst
                && phase.acc == Reports.ApplyAll(m.tasks[t].phase.acc, Reports.Changes(types, AttrsOf(step.chunk))))
    ensures Next(types, m, step).next >= m.next
  {
    hide NoteAll, FoundSilent, Polled, Clear, Own, Lose, Released, Cancelled, Delivered, Snapshot,
      Reports.ApplyAll, Reports.Changes;
    if step.Poll? {
      PollKeeps(m, step.task);
      PollOutcome(m, step.task);
    }
    match step {
      case Start(_) => CancelledTasks(m.tasks, m.running, step.node);
      case Stop(_) => CancelledTasks(m.tasks, m.running, step.node);
      case Deliver(from, report, now) => DeliveryKeeps(types, m, from, report, now);
      case _ =>
    }
  }

  lemma {:induction false} NextNeverFalls(types: Reports.AttrTypes, m: Machine, step: Step)
    requires Enabled(m, step)
    ensures Next(types, m, step).next >= m.next
  {
    hide NoteAll, FoundSilent, Polled, Clear, Own, Lose, Released, Cancelled, Delivered, Snapshot,
      Reports.ApplyAll, Reports.Changes;
    if step.Poll? {
      PollKeeps(m, step.task);
      PollOutcome(m, step.task);
    }
    if step.Deliver? {
      DeliveryKeeps(types, m, step.from, step.report, step.now);
    }
  }

  lemma {:induction false} PrimingsSnoc(types: Reports.AttrTypes, primed: seq<Reports.AttrReport>,
      more: seq<Reports.AttrReport>)
    ensures Primings(types, primed + more) == Reports.ApplyAll(Primings(types, primed), Reports.Changes(types, more))
    ensures Primings(types, []) == []
  {
    Chunking.ChangesOfBoth(types, primed, more);
    Chunking.ApplyBoth([], Reports.Changes(types, primed), Reports.Changes(types, more));
  }

  /** In every reachable state an attempt has accumulated exactly the chunks primed in it. */
  lemma {:induction false} AttemptsAccumulate(types: Reports.AttrTypes, steps: seq<Step>)
    requires After(types, steps).Some?
    ensures AttemptsApart(After(types, steps).value) && Accumulated(types, steps)
  {
    hide Next, AttemptsApart, Primings;
    if steps == [] {
      NoAttempts();
    } else {
      var front, step := steps[..|steps| - 1], steps[|steps| - 1];
      var m := After(types, front).value;
      AttemptsAccumulate(types, front);
      NoOverlap.AttemptsAreNumbered(types, front);
      ApartKept(types, m, step);
      NextNeverFalls(types, m, step);
      AccumulatedStep(types, steps);
    }
  }

  lemma {:induction false} AccumulatedStep(types: Reports.AttrTypes, steps: seq<Step>)
    requires steps != [] && After(types, steps).Some?
    requires var front := steps[..|steps| - 1];
             Accumulated(types, front) && AttemptsApart(After(types, front).value)
             && NoOverlap.AttemptsBelow(After(types, front).value)
    ensures Accumulated(types, steps)
  {
    hide Next, Primings;
    var front, step := steps[..|steps| - 1], steps[|steps| - 1];
    var m, after := After(types, front).value, After(types, steps).value;
    NextNeverFalls(types, m, step);
    forall t | t in after.tasks && after.tasks[t].phase.Establishing?
      ensures after.tasks[t].phase.acc == Primings(types, PrimedIn(types, steps, after.tasks[t].phase.inst))
    {
      AttemptStep(types, m, step, t);
      PrimingsSnoc(types, PrimedIn(types, front, after.tasks[t].phase.inst),
                   if step.Prime? then AttrsOf(step.chunk) else []);
      if step.Prime? {
        assert InAttempt(m, step.task) && (t in m.tasks ==> InAttempt(m, t));
      }
    }
    forall i | i >= after.next ensures PrimedIn(types, steps, i) == [] {
      if step.Prime? {
        assert m.tasks[step.task].phase.inst < m.next;
      }
    }
  }

  lemma NoAttempts()
    ensures AttemptsApart(INITIAL)
  {
  }

  /** The snapshot's value of each path is the one accumulated for it. */
  lemma {:induction false} SnapshotHolds(pairs: seq<Reports.Pair>, key: string)
    ensures key in Snapshot(pairs) <==> Reports.Lookup(pairs, key).Some?
    ensures key in Snapshot(pairs) ==> Snapshot(pairs)[key] == Reports.Lookup(pairs, key).value
  {
    if pairs != [] {
      SnapshotHolds(pairs[..|pairs| - 1], key);
    }
  }

  /** Establishing announces the node and then exactly what the chunks of this attempt add
      up to, whatever other attempts and other nodes' messages came between. */
  lemma {:induction false} SnapshotIsPriming(types: Reports.AttrTypes, steps: seq<Step>, own: Step)
    requires After(types, steps).Some? && own.Establish? && Enabled(After(types, steps).value, own)
    ensures var m := After(types, steps).value;
            var task := m.tasks[own.task];
            Next(types, m, own).sh.events == m.sh.events +
              [NodeState(task.node, Connected(own.maxInterval)),
               PrimingSnapshot(task.node, Snapshot(Primings(types, PrimedIn(types, steps, task.phase.inst))))]
  {
    hide Primings, Snapshot, After, PrimedIn;
    AttemptsAccumulate(types, steps);
  }
}
