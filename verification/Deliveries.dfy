/** Which reports count, and what each step of the protocol announces. */
module Deliveries {
  import opened Wrappers
  import Reports
  import opened Reassembly
  import opened StackContext
  import opened Supervision
  import opened NoOverlap

  // --------------------------------------------------------------- which reports count

  lemma {:induction false} DeliveredChanges(types: Reports.AttrTypes, m: Machine, from: Source, report: Reports.Report,
      now: Time)
    ensures Delivered(types, m, from, report, now) != m <==> Accepts(m.sh, from)
  {
    hide Handle, Accepts;
    if Accepts(m.sh, from) {
      var after := Delivered(types, m, from, report, now);
      if MoreFollows(report) {
        assert |after.sources[from.node]| > if from.node in m.sources then |m.sources[from.node]| else 0;
      } else {
        assert |after.batches| == |m.batches| + 1;
      }
    }
  }

  /** A report makes a difference exactly when it came on our fabric and names the very id the
      table holds for its node: a straggler of a superseded subscription, a report of another
      fabric and one without an id change nothing. */
  lemma {:induction false} ReportCounts(types: Reports.AttrTypes, m: Machine, from: Source, report: Reports.Report,
      now: Time)
    ensures Next(types, m, Deliver(from, report, now)) != m <==>
            from.ourFabric && from.sub.Some? && from.node in m.sh.subs && m.sh.subs[from.node] == from.sub.value
  {
    hide Delivered;
    DeliveredChanges(types, m, from, report, now);
  }

  /** In every reachable state a report that makes a difference came on our fabric and names an
      id that the guard of an undestroyed task of its node stands for ... */
  lemma {:induction false} CountedIsGuarded(types: Reports.AttrTypes, steps: seq<Step>, from: Source,
      report: Reports.Report, now: Time)
    requires After(types, steps).Some?
    ensures var m := After(types, steps).value;
            Next(types, m, Deliver(from, report, now)) != m ==>
              from.ourFabric && from.sub.Some? && exists t :: Guards(m, t, from.node, from.sub.value)
  {
    hide Next, Guards, HandlesMatch, HistoryMatches;
    var m := After(types, steps).value;
    ReachableInv(types, steps);
    ReportCounts(types, m, from, report, now);
    if Next(types, m, Deliver(from, report, now)) != m {
      assert Guarded(m, from.node, m.sh.subs[from.node]);
    }
  }

  /** ... and without overlap every report of which that can be said makes one. */
  lemma {:induction false} GuardedCounts(types: Reports.AttrTypes, steps: seq<Step>, from: Source,
      report: Reports.Report, now: Time)
    requires AlwaysAlone(types, steps)
    ensures var m := After(types, steps).value;
            Next(types, m, Deliver(from, report, now)) != m <==>
              from.ourFabric && from.sub.Some? && exists t :: Guards(m, t, from.node, from.sub.value)
  {
    hide Next, SourcesOwned, BatchesUnmixed, Orderly, EntriesUp;
    var m := After(types, steps).value;
    CountedIsGuarded(types, steps, from, report, now);
    ReportCounts(types, m, from, report, now);
    WithoutOverlap(types, steps);
    if from.sub.Some? {
      if t :| Guards(m, t, from.node, from.sub.value) {
        assert Agrees(m, m.tasks[t]);
      }
    }
  }

  // ------------------------------------------------------------- what steps announce

  /** What one report announces: its released changes first, all of them at once, then one
      event for each number above the mark. */
  predicate SaysReport(more: seq<StackEvent>, n: NodeId, released: Option<seq<Reports.Pair>>, numbers: seq<nat>) {
    var changes := released.Some? && released.value != [];
    var first := if changes then 1 else 0;
    && |more| == first + |numbers|
    && (changes ==> more[0] == AttributesChanged(n, released.value))
    && forall k :: 0 <= k < |numbers| ==> more[first + k] == NodeEvent(n, numbers[k])
  }

  lemma {:induction false} HandlingSays(types: Reports.AttrTypes, sh: Shared, from: Source, report: Reports.Report,
      now: Time)
    requires Accepts(sh, from)
    ensures var after, n := Handle(types, sh, from, report, now), from.node;
            && sh.events <= after.events
            && SaysReport(after.events[|sh.events|..], n, Absorbing(types, sh.pending, n, report).1,
                          NewOnes(sh.lastEvent, n, report.events))
  {
    hide Absorbing, NewOnes, NoteAll;
  }

  /** What a step adds to the events sent. An established subscription is announced before its
      state; a failed attempt and a subscription given up are each announced as a loss. */
  lemma {:induction false} StepsAnnounce(types: Reports.AttrTypes, m: Machine, step: Step)
    requires Enabled(m, step)
    ensures var after := Next(types, m, step).sh.events;
            && m.sh.events <= after
            && var more := after[|m.sh.events|..];
               match step
               case Establish(t, _, maxInterval, _) =>
                 var n := m.tasks[t].node;
                 more == [NodeState(n, Connected(maxInterval)), PrimingSnapshot(n, Snapshot(m.tasks[t].phase.acc))]
               case Fail(t) => more == [NodeState(m.tasks[t].node, Reconnecting)]
               case Poll(t) =>
                 more == if FoundSilent(m.sh, m.tasks[t]) then [NodeState(m.tasks[t].node, Reconnecting)] else []
               case Deliver(from, report, _) =>
                 if Accepts(m.sh, from) then
                   SaysReport(more, from.node, Absorbing(types, m.sh.pending, from.node, report).1,
                              NewOnes(m.sh.lastEvent, from.node, report.events))
                 else more == []
               case _ => more == []
  {
    hide Handle, Absorbing, NewOnes, NoteAll, FoundSilent, Polled, Snapshot, SaysReport, Accepts, Cancelled;
    match step {
      case Poll(t) => PollOutcome(m, t);
      case Deliver(from, report, now) =>
        hide Next, Delivered;
        DeliveryIsHandling(types, m, from, report, now);
        if Accepts(m.sh, from) {
          HandlingSays(types, m.sh, from, report, now);
        }
      case _ =>
    }
  }

  lemma {:induction false} DeliveryIsHandling(types: Reports.AttrTypes, m: Machine, from: Source,
      report: Reports.Report, now: Time)
    ensures Next(types, m, Deliver(from, report, now)).sh ==
            if Accepts(m.sh, from) then Handle(types, m.sh, from, report, now) else m.sh
  {
    hide Handle, Accepts, MoreFollows, Batch;
  }
}
