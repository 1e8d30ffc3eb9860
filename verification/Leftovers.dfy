/** Unfinished reports that outlive their subscription. */
module Leftovers {
  import opened Wrappers
  import Reports
  import opened Reassembly
  import opened StackContext
  import opened Supervision
  import opened NoOverlap

  // --------------------------------------------------------------- what steps do

  /** A message of the node is accepted and more follow. */
  predicate BringsMore(m: Machine, step: Step, n: NodeId) {
    step.Deliver? && step.from.node == n && Accepts(m.sh, step.from) && MoreFollows(step.report)
  }

  /** The node's unfinished report is completed or cleared. */
  predicate Settles(m: Machine, step: Step, n: NodeId) {
    match step
    case Stop(node) => node == n
    case Begin(t) => t in m.tasks && m.tasks[t].node == n
    case Retry(t) => t in m.tasks && m.tasks[t].node == n
    case Poll(t) => Live(m, t) && m.tasks[t].node == n && m.tasks[t].phase.Watching? && FoundSilent(m.sh, m.tasks[t])
    case Deliver(from, report, _) => from.node == n && Accepts(m.sh, from) && !MoreFollows(report)
    case _ => false
  }

  /** A task that held the node's subscription is destroyed. */
  predicate DropsGuard(m: Machine, step: Step, n: NodeId) {
    step.Destroy? && step.task in m.tasks && m.tasks[step.task].node == n && m.tasks[step.task].phase.Watching?
  }

  // ------------------------------------------------------------ in terms of the run

  /** The state in which step `j` of the run was taken. */
  function Before(types: Reports.AttrTypes, steps: seq<Step>, j: nat): Machine
    requires j <= |steps|
  {
    After(types, steps[..j]).GetOr(INITIAL)
  }

  predicate MoreAt(types: Reports.AttrTypes, steps: seq<Step>, n: NodeId, j: nat) {
    j < |steps| && BringsMore(Before(types, steps, j), steps[j], n)
  }

  predicate SettledAt(types: Reports.AttrTypes, steps: seq<Step>, n: NodeId, j: nat) {
    j < |steps| && Settles(Before(types, steps, j), steps[j], n)
  }

  predicate DroppedAt(types: Reports.AttrTypes, steps: seq<Step>, n: NodeId, k: nat) {
    k < |steps| && DropsGuard(Before(types, steps, k), steps[k], n)
  }

  ghost predicate NotSettledSince(types: Reports.AttrTypes, steps: seq<Step>, n: NodeId, j: nat) {
    forall l: nat :: j < l < |steps| ==> !SettledAt(types, steps, n, l)
  }

  /** A message with more to follow was accepted and nothing settled the report since. */
  ghost predicate Unfinished(types: Reports.AttrTypes, steps: seq<Step>, n: NodeId) {
    exists j: nat :: MoreAt(types, steps, n, j) && NotSettledSince(types, steps, n, j)
  }

  /** ... and after it the task that held the subscription was destroyed. */
  ghost predicate LeftOver(types: Reports.AttrTypes, steps: seq<Step>, n: NodeId) {
    exists j: nat, k: nat :: j < k && MoreAt(types, steps, n, j) && DroppedAt(types, steps, n, k) &&
      NotSettledSince(types, steps, n, j)
  }

  lemma {:induction false} PrefixReached(types: Reports.AttrTypes, steps: seq<Step>, j: nat)
    requires j <= |steps| && After(types, steps).Some?
    ensures After(types, steps[..j]).Some?
  {
    hide Next, Enabled;
    if j == |steps| {
      assert steps[..j] == steps;
    } else {
      assert steps[..|steps| - 1][..j] == steps[..j];
      PrefixReached(types, steps[..|steps| - 1], j);
    }
  }

  /** Positions of a run seen from its front: all but the last are the front's. */
  lemma {:induction false} FrontPositions(types: Reports.AttrTypes, steps: seq<Step>, n: NodeId, j: nat)
    requires steps != [] && After(types, steps).Some?
    ensures var front := steps[..|steps| - 1];
            j < |front| ==>
              && (MoreAt(types, steps, n, j) <==> MoreAt(types, front, n, j))
              && (SettledAt(types, steps, n, j) <==> SettledAt(types, front, n, j))
              && (DroppedAt(types, steps, n, j) <==> DroppedAt(types, front, n, j))
    ensures Before(types, steps, |steps| - 1) == After(types, steps[..|steps| - 1]).value
  {
    hide After, BringsMore, Settles, DropsGuard;
    PrefixReached(types, steps, |steps| - 1);
    if j < |steps| - 1 {
      assert steps[..|steps| - 1][..j] == steps[..j];
    }
  }

  lemma {:induction false} UnfinishedSnoc(types: Reports.AttrTypes, steps: seq<Step>, n: NodeId)
    requires steps != [] && After(types, steps).Some?
    ensures var front, step := steps[..|steps| - 1], steps[|steps| - 1];
            var m := Before(types, steps, |steps| - 1);
            Unfinished(types, steps, n) <==>
              BringsMore(m, step, n) || (Unfinished(types, front, n) && !Settles(m, step, n))
  {
    hide BringsMore, Settles, Before, MoreAt, SettledAt;
    var front, last := steps[..|steps| - 1], |steps| - 1;
    LastPosition(types, steps, n);
    forall j: nat ensures j < last ==>
                       (MoreAt(types, steps, n, j) <==> MoreAt(types, front, n, j))
                       && (SettledAt(types, steps, n, j) <==> SettledAt(types, front, n, j)) {
      FrontPositions(types, steps, n, j);
    }
    if Unfinished(types, steps, n) {
      var j: nat :| MoreAt(types, steps, n, j) && NotSettledSince(types, steps, n, j);
      InRange(types, steps, n, j);
      if j < last {
        assert NotSettledSince(types, front, n, j);
      }
    }
    if Unfinished(types, front, n) && !Settles(Before(types, steps, last), steps[last], n) {
      var j: nat :| MoreAt(types, front, n, j) && NotSettledSince(types, front, n, j);
      InRange(types, front, n, j);
      assert NotSettledSince(types, steps, n, j);
    }
    if BringsMore(Before(types, steps, last), steps[last], n) {
      assert NotSettledSince(types, steps, n, last);
    }
  }

  lemma InRange(types: Reports.AttrTypes, steps: seq<Step>, n: NodeId, j: nat)
    ensures MoreAt(types, steps, n, j) ==> j < |steps|
    ensures SettledAt(types, steps, n, j) ==> j < |steps|
    ensures DroppedAt(types, steps, n, j) ==> j < |steps|
  {
  }

  lemma LastPosition(types: Reports.AttrTypes, steps: seq<Step>, n: NodeId)
    requires steps != []
    ensures var m, step, last := Before(types, steps, |steps| - 1), steps[|steps| - 1], |steps| - 1;
            && (MoreAt(types, steps, n, last) <==> BringsMore(m, step, n))
            && (SettledAt(types, steps, n, last) <==> Settles(m, step, n))
            && (DroppedAt(types, steps, n, last) <==> DropsGuard(m, step, n))
  {
  }

  lemma {:induction false} LeftOverSnoc(types: Reports.AttrTypes, steps: seq<Step>, n: NodeId)
    requires steps != [] && After(types, steps).Some?
    ensures var front, step := steps[..|steps| - 1], steps[|steps| - 1];
            var m := Before(types, steps, |steps| - 1);
            LeftOver(types, steps, n) <==>
              !Settles(m, step, n) &&
              (LeftOver(types, front, n) || (DropsGuard(m, step, n) && Unfinished(types, front, n)))
  {
    hide BringsMore, Settles, DropsGuard, Before, MoreAt, SettledAt, DroppedAt;
    var front, last := steps[..|steps| - 1], |steps| - 1;
    var m := Before(types, steps, last);
    LastPosition(types, steps, n);
    forall j: nat ensures j < last ==>
                       && (MoreAt(types, steps, n, j) <==> MoreAt(types, front, n, j))
                       && (SettledAt(types, steps, n, j) <==> SettledAt(types, front, n, j))
                       && (DroppedAt(types, steps, n, j) <==> DroppedAt(types, front, n, j)) {
      FrontPositions(types, steps, n, j);
    }
    if LeftOver(types, steps, n) {
      var j: nat, k: nat :| j < k && MoreAt(types, steps, n, j) && DroppedAt(types, steps, n, k) &&
        NotSettledSince(types, steps, n, j);
      InRange(types, steps, n, k);
      assert NotSettledSince(types, front, n, j);
    }
    if !Settles(m, steps[last], n) {
      if LeftOver(types, front, n) {
        var j: nat, k: nat :| j < k && MoreAt(types, front, n, j) && DroppedAt(types, front, n, k) &&
          NotSettledSince(types, front, n, j);
        InRange(types, front, n, k);
        assert NotSettledSince(types, steps, n, j);
      }
      if DropsGuard(m, steps[last], n) && Unfinished(types, front, n) {
        var j: nat :| MoreAt(types, front, n, j) && NotSettledSince(types, front, n, j);
        InRange(types, front, n, j);
        assert NotSettledSince(types, steps, n, j) && DroppedAt(types, steps, n, last);
      }
    }
  }

  // ------------------------------------------------------------- pending and owned

  lemma {:induction false} DeliveryPends(types: Reports.AttrTypes, m: Machine, from: Source, report: Reports.Report,
                                         now: Time, n: NodeId)
    ensures var after := Delivered(types, m, from, report, now).sh;
            && after.subs == m.sh.subs
            && (n in after.pending <==>
                  if from.node == n && Accepts(m.sh, from) then MoreFollows(report) else n in m.sh.pending)
  {
    hide Batch, Handle;
    HandlingKeepsEntries(types, m.sh, from, report, now);
    HandlingPends(types, m.sh, from, report, now, n);
  }

  lemma {:induction false} HandlingPends(types: Reports.AttrTypes, sh: Shared, from: Source, report: Reports.Report,
                                         now: Time, n: NodeId)
    ensures n in Handle(types, sh, from, report, now).pending <==>
            if from.node == n && Accepts(sh, from) then MoreFollows(report) else n in sh.pending
  {
    hide NoteAll, FoundSilent, Polled, NewOnes, NodeEvents, Reports.ApplyAll, Reports.Changes;
  }

  /** Whether a node has an unfinished report after a step. */
  lemma {:induction false} PendingStep(types: Reports.AttrTypes, m: Machine, step: Step, n: NodeId)
    requires Enabled(m, step)
    ensures n in Next(types, m, step).sh.pending <==>
            BringsMore(m, step, n) || (n in m.sh.pending && !Settles(m, step, n))
  {
    hide NoteAll, FoundSilent, Polled, Cancelled, Delivered, Snapshot, Reports.ApplyAll, Reports.Changes;
    if step.Poll? {
      PollKeeps(m, step.task);
      PollOutcome(m, step.task);
    }
    if step.Deliver? {
      DeliveryPends(types, m, step.from, step.report, step.now, n);
    }
  }

  /** ... and whether it has a subscription: a step that settles nothing takes one away only
      by dropping its guard, and gives one only to a node with no unfinished report. */
  lemma {:induction false} OwnedStep(types: Reports.AttrTypes, m: Machine, step: Step, n: NodeId)
    requires Enabled(m, step) && AllAgree(m) && HistoryMatches(m) && !Settles(m, step, n)
    ensures var after := Next(types, m, step).sh;
            && (DropsGuard(m, step, n) ==> n !in after.subs)
            && (!DropsGuard(m, step, n) && n in m.sh.subs ==> n in after.subs)
            && (n !in m.sh.subs && n in after.subs ==> n !in after.pending && n !in m.sh.pending)
  {
    hide NoteAll, FoundSilent, Polled, Cancelled, Delivered, Snapshot, Reports.ApplyAll, Reports.Changes;
    if step.Poll? {
      PollKeeps(m, step.task);
      PollOutcome(m, step.task);
    }
    match step {
      case Deliver(from, report, now) => DeliveryPends(types, m, from, report, now, n);
      case Start(_) =>
      case Stop(_) =>
      case Shutdown =>
      case _ => assert Agrees(m, m.tasks[step.task]);
    }
  }

  lemma {:induction false} PendingIsUnfinished(types: Reports.AttrTypes, steps: seq<Step>, n: NodeId)
    requires After(types, steps).Some?
    ensures n in After(types, steps).value.sh.pending <==> Unfinished(types, steps, n)
  {
    hide Next, BringsMore, Settles, Unfinished;
    if steps == [] {
      NothingLeft(types, n);
    } else {
      var front := steps[..|steps| - 1];
      PendingIsUnfinished(types, front, n);
      UnfinishedSnoc(types, steps, n);
      FrontPositions(types, steps, n, 0);
      PendingStep(types, After(types, front).value, steps[|steps| - 1], n);
    }
  }

  lemma NothingLeft(types: Reports.AttrTypes, n: NodeId)
    ensures !Unfinished(types, [], n) && !LeftOver(types, [], n)
    ensures n !in INITIAL.sh.pending && n !in INITIAL.sh.subs
  {
  }

  /** Without overlap an unfinished report outlives its subscription exactly when a message
      with more to follow was accepted, the task that held the subscription was destroyed
      after it, and no final message, new attempt or stop of the node came since. */
  lemma {:induction false} OutlivesExactly(types: Reports.AttrTypes, steps: seq<Step>, n: NodeId)
    requires AlwaysAlone(types, steps)
    ensures var m := After(types, steps).value;
            n in m.sh.pending && n !in m.sh.subs <==> LeftOver(types, steps, n)
  {
    hide Next, BringsMore, Settles, DropsGuard, LeftOver, Unfinished, Alone, AllAgree, SourcesOwned, BatchesUnmixed,
      Orderly, EntriesUp, EntriesGuarded, HandlesMatch, HistoryMatches;
    if steps == [] {
      NothingLeft(types, n);
    } else {
      var front, step := steps[..|steps| - 1], steps[|steps| - 1];
      var m := After(types, front).value;
      OutlivesExactly(types, front, n);
      WithoutOverlap(types, front);
      ReachableInv(types, front);
      PendingIsUnfinished(types, front, n);
      LeftOverSnoc(types, steps, n);
      FrontPositions(types, steps, n, 0);
      PendingStep(types, m, step, n);
      if Settles(m, step, n) {
        SettlingBringsNothing(m, step, n);
      } else {
        OwnedStep(types, m, step, n);
        if BringsMore(m, step, n) {
          BringingNeedsEntry(m, step, n);
        }
      }
    }
  }

  lemma SettlingBringsNothing(m: Machine, step: Step, n: NodeId)
    requires Settles(m, step, n)
    ensures !BringsMore(m, step, n)
  {
  }

  lemma BringingNeedsEntry(m: Machine, step: Step, n: NodeId)
    requires BringsMore(m, step, n)
    ensures n in m.sh.subs && !DropsGuard(m, step, n)
  {
  }

  // ------------------------------------------------------------ nodes that were stopped

  /** Once closed the request loop stays closed, and while it is open only a stop takes a
      node's handle away. */
  lemma {:induction false} HandleStep(types: Reports.AttrTypes, m: Machine, step: Step, n: NodeId)
    requires Enabled(m, step)
    ensures var after := Next(types, m, step);
            && (after.open ==> m.open)
            && (after.open && n in m.running && step != Stop(n) ==> n in after.running)
  {
    hide NoteAll, FoundSilent, Polled, Cancelled, Delivered, Handle, Own, Lose, Clear, Released, Snapshot,
      Reports.ApplyAll, Reports.Changes;
    if step.Poll? {
      PollKeeps(m, step.task);
      PollOutcome(m, step.task);
    }
    if step.Deliver? {
      DeliveryKeeps(types, m, step.from, step.report, step.now);
    }
  }

  lemma {:induction false} HandleLastsUntilStop(types: Reports.AttrTypes, steps: seq<Step>, n: NodeId, j: nat)
    requires j <= |steps| && After(types, steps).Some? && After(types, steps).value.open
    ensures Before(types, steps, j).open
    ensures n in Before(types, steps, j).running && (forall l :: j <= l < |steps| ==> steps[l] != Stop(n)) ==>
              n in After(types, steps).value.running
  {
    hide Next, Enabled;
    if j == |steps| {
      assert steps[..j] == steps;
    } else {
      var front := steps[..|steps| - 1];
      HandleStep(types, After(types, front).value, steps[|steps| - 1], n);
      HandleLastsUntilStop(types, front, n, j);
      assert front[..j] == steps[..j];
    }
  }

  /** While the loop is open a node with a subscription and no handle was stopped. */
  lemma {:induction false} OwnedWithoutHandle(types: Reports.AttrTypes, steps: seq<Step>, n: NodeId)
    requires After(types, steps).Some?
    requires var m := After(types, steps).value; m.open && n in m.sh.subs && n !in m.running
    ensures Stop(n) in steps
  {
    hide Next, Enabled, HandlesMatch, EntriesGuarded, HistoryMatches;
    if steps == [] {
      NothingLeft(types, n);
    } else {
      var front, step := steps[..|steps| - 1], steps[|steps| - 1];
      var m := After(types, front).value;
      assert forall s :: s in front ==> s in steps;
      if step != Stop(n) {
        ReachableInv(types, front);
        HandleStep(types, m, step, n);
        EntryNeedsHandle(types, m, step, n);
        OwnedWithoutHandle(types, front, n);
      }
    }
  }

  lemma {:induction false} EntryNeedsHandle(types: Reports.AttrTypes, m: Machine, step: Step, n: NodeId)
    requires Enabled(m, step) && HandlesMatch(m) && n !in m.running
    ensures n in Next(types, m, step).sh.subs ==> n in m.sh.subs
  {
    hide NoteAll, FoundSilent, Polled, Cancelled, Delivered, Snapshot, Reports.ApplyAll, Reports.Changes;
    if step.Poll? {
      PollKeeps(m, step.task);
      PollOutcome(m, step.task);
    }
    if step.Deliver? {
      DeliveryPends(types, m, step.from, step.report, step.now, n);
    }
  }

  /** After a stop, a message with more to follow was accepted before the node's task was
      destroyed, and nothing settled it. */
  ghost predicate LeftAfterStop(types: Reports.AttrTypes, steps: seq<Step>, n: NodeId) {
    exists j: nat, k: nat ::
      && j < k && MoreAt(types, steps, n, j) && DroppedAt(types, steps, n, k) && NotSettledSince(types, steps, n, j)
      && Stop(n) in steps[..j]
  }

  /** A node the request loop keeps no handle of, without a subscription: an unfinished report
      stays behind exactly when one of its messages was accepted between a stop and the
      destruction of its task, with no final message, attempt or stop since. */
  lemma {:induction false} StoppedNodeKeepsAReport(types: Reports.AttrTypes, steps: seq<Step>, n: NodeId)
    requires AlwaysAlone(types, steps)
    requires var m := After(types, steps).value; m.open && n !in m.running
    ensures var m := After(types, steps).value;
            n in m.sh.pending && n !in m.sh.subs <==> LeftAfterStop(types, steps, n)
  {
    hide After, Alone, MoreAt, DroppedAt, NotSettledSince;
    OutlivesExactly(types, steps, n);
    if LeftOver(types, steps, n) {
      var j: nat, k: nat :|
        j < k && MoreAt(types, steps, n, j) && DroppedAt(types, steps, n, k) && NotSettledSince(types, steps, n, j);
      MessageAfterStop(types, steps, n, j);
    }
  }

  lemma StopSettles(types: Reports.AttrTypes, steps: seq<Step>, n: NodeId, l: nat)
    requires l < |steps|
    ensures steps[l] == Stop(n) ==> SettledAt(types, steps, n, l)
  {
  }

  lemma {:induction false} MessageAfterStop(types: Reports.AttrTypes, steps: seq<Step>, n: NodeId, j: nat)
    requires After(types, steps).Some? && MoreAt(types, steps, n, j) && NotSettledSince(types, steps, n, j)
    requires var m := After(types, steps).value; m.open && n !in m.running
    ensures Stop(n) in steps[..j]
  {
    hide After, Next;
    PrefixReached(types, steps, j);
    HandleLastsUntilStop(types, steps, n, j);
    BringingNeedsEntry(Before(types, steps, j), steps[j], n);
    forall l: nat | j <= l < |steps| ensures steps[l] != Stop(n) {
      StopSettles(types, steps, n, l);
    }
    OwnedWithoutHandle(types, steps[..j], n);
  }

  // -------------------------------------------------------------------- an instance

  /** A node is stopped while it subscribes; before its task is destroyed the first message
      of a report arrives, and is still accepted. */
  const LEAVING: seq<Step> :=
    OVERLAPPING[..3] + [Stop(1)] + [Deliver(Source(1, Some(7), true), REPORT_MORE, 0)] + [Destroy(0)]

  lemma OnlyTask(m: Machine)
    requires m.tasks.Keys <= {0}
    ensures Alone(m)
  {
  }

  lemma {:induction false} AloneSnoc(types: Reports.AttrTypes, steps: seq<Step>, step: Step)
    requires AlwaysAlone(types, steps) && After(types, steps + [step]).Some?
    requires After(types, steps + [step]).value.tasks.Keys <= {0}
    ensures AlwaysAlone(types, steps + [step])
  {
    hide After, Alone;
    OnlyTask(After(types, steps + [step]).value);
    assert (steps + [step])[..|steps|] == steps;
  }

  lemma {:induction false} WatchingAlone(types: Reports.AttrTypes)
    ensures AlwaysAlone(types, OVERLAPPING[..3])
  {
    hide Alone, Own;
    var s1, s2, s3 := OVERLAPPING[..1], OVERLAPPING[..2], OVERLAPPING[..3];
    assert s1 == [] + [Start(1)] && s2 == s1 + [OVERLAPPING[1]] && s3 == s2 + [OVERLAPPING[2]];
    OneMore(types, [], OVERLAPPING[0]);
    OneMore(types, s1, OVERLAPPING[1]);
    OneMore(types, s2, OVERLAPPING[2]);
    OnlyTask(INITIAL);
    assert AlwaysAlone(types, []);
    AloneSnoc(types, [], OVERLAPPING[0]);
    AloneSnoc(types, s1, OVERLAPPING[1]);
    AloneSnoc(types, s2, OVERLAPPING[2]);
  }

  /** In a run without overlap, every task destroyed and no handle left, a stopped node still
      has an unfinished report. */
  lemma {:induction false} StoppedNodeLeaks(types: Reports.AttrTypes)
    ensures AlwaysAlone(types, LEAVING)
    ensures var m := After(types, LEAVING).value;
            m.open && m.tasks == map[] && m.running == map[] && m.sh.subs == map[] && 1 in m.sh.pending
  {
    hide After, Handle, AlwaysAlone;
    WatchingState(types);
    WatchingAlone(types);
    var s0 := OVERLAPPING[..3];
    var m0 := After(types, s0).value;
    var stop, more, gone := Stop(1), Deliver(Source(1, Some(7), true), REPORT_MORE, 0), Destroy(0);
    OneMore(types, s0, stop);
    var m1 := Next(types, m0, stop);
    AloneSnoc(types, s0, stop);
    OneMore(types, s0 + [stop], more);
    var m2 := Next(types, m1, more);
    DeliveryPends(types, m1, more.from, REPORT_MORE, 0, 1);
    AloneSnoc(types, s0 + [stop], more);
    OneMore(types, s0 + [stop] + [more], gone);
    AloneSnoc(types, s0 + [stop] + [more], gone);
  }
}
