/** What the liveness entries say in a whole run of the protocol. */
module LastHeard {
  import Reports
  import opened Reassembly
  import opened StackContext
  import opened Supervision
  import opened NoOverlap

  /** When each node was last heard of: its last subscription or accepted report. */
  function HeardAfter(m: Machine, heard: map<NodeId, Time>, step: Step): map<NodeId, Time>
    requires Enabled(m, step)
  {
    match step
    case Establish(t, _, _, now) => heard[m.tasks[t].node := now]
    case Deliver(from, _, now) => if Accepts(m.sh, from) then heard[from.node := now] else heard
    case _ => heard
  }

  function Heard(types: Reports.AttrTypes, steps: seq<Step>): map<NodeId, Time>
    requires After(types, steps).Some?
  {
    if steps == [] then map[]
    else
      var front := steps[..|steps| - 1];
      HeardAfter(After(types, front).value, Heard(types, front), steps[|steps| - 1])
  }

  /** Every node with a subscription has a liveness entry, which is when it was last heard
      of. */
  ghost predicate Stamped(m: Machine, heard: map<NodeId, Time>) {
    forall n :: n in m.sh.subs ==> n in m.sh.liveness && n in heard && m.sh.liveness[n] == heard[n]
  }

  lemma {:induction false} DeliveryStamps(types: Reports.AttrTypes, m: Machine, heard: map<NodeId, Time>,
                                          from: Source, report: Reports.Report, now: Time)
    requires Stamped(m, heard)
    ensures Stamped(Next(types, m, Deliver(from, report, now)), HeardAfter(m, heard, Deliver(from, report, now)))
  {
    hide Batch, Absorbing, NoteAll, NewOnes, NodeEvents, Primed, Snapshot, Reports.ApplyAll, Reports.Changes;
  }

  lemma {:induction false} TaskStamps(types: Reports.AttrTypes, m: Machine, heard: map<NodeId, Time>, step: Step)
    requires Stamped(m, heard) && Enabled(m, step) && ByTask(step) && Agrees(m, m.tasks[step.task])
    ensures Stamped(Next(types, m, step), HeardAfter(m, heard, step))
  {
    hide NoteAll, FoundSilent, Polled;
    if step.Poll? {
      PollKeeps(m, step.task);
      PollOutcome(m, step.task);
    }
  }

  lemma {:induction false} StampsKept(types: Reports.AttrTypes, m: Machine, heard: map<NodeId, Time>, step: Step)
    requires Stamped(m, heard) && Enabled(m, step) && AllAgree(m)
    ensures Stamped(Next(types, m, step), HeardAfter(m, heard, step))
  {
    hide Agrees, Cancelled, Delivered;
    match step {
      case Deliver(from, report, now) => DeliveryStamps(types, m, heard, from, report, now);
      case Start(_) =>
      case Stop(_) =>
      case Shutdown =>
      case _ =>
        hide Next;
        TaskStamps(types, m, heard, step);
    }
  }

  /** Without overlap a watch never misses its entry: as long as the subscription stands the
      entry is there, and it is the time of the last report accepted under it or of its
      establishment. */
  lemma {:induction false} EntryIsLastHeard(types: Reports.AttrTypes, steps: seq<Step>)
    requires AlwaysAlone(types, steps)
    ensures Stamped(After(types, steps).value, Heard(types, steps))
  {
    hide Next, Inv, Alone, AllAgree, SourcesOwned, BatchesUnmixed, Orderly, EntriesUp, Stamped, HeardAfter;
    if steps == [] {
      NothingStamped();
    } else {
      var front, step := steps[..|steps| - 1], steps[|steps| - 1];
      EntryIsLastHeard(types, front);
      WithoutOverlap(types, front);
      StampsKept(types, After(types, front).value, Heard(types, front), step);
    }
  }

  lemma NothingStamped()
    ensures Stamped(INITIAL, map[])
  {
  }

  /** With overlap the old guard's drop takes the new subscription's entry: a watch then
      counts from establishment. */
  lemma {:induction false} OverlapTakesTheEntry(types: Reports.AttrTypes) returns (steps: seq<Step>)
    ensures After(types, steps).Some?
    ensures var m := After(types, steps).value; 1 in m.sh.subs && 1 !in m.sh.liveness
  {
    hide After;
    var m0 := OverlapState(types);
    var own, gone := Establish(2, 8, 60, 0), Destroy(0);
    OneMore(types, OVERLAPPING, own);
    OneMore(types, OVERLAPPING + [own], gone);
    steps := OVERLAPPING + [own] + [gone];
  }
}
