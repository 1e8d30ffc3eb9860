/** What the protocol keeps as long as no two tasks of one node have both begun: a
    superseded task is destroyed before its successor first runs. */
module NoOverlap {
  import opened Wrappers
  import opened Json
  import Reports
  import opened Reassembly
  import opened StackContext
  import opened Supervision

  predicate Begun(m: Machine, t: TaskId) {
    t in m.tasks && !m.tasks[t].phase.Starting?
  }

  ghost predicate Alone(m: Machine) {
    forall t, u :: Begun(m, t) && Begun(m, u) && m.tasks[t].node == m.tasks[u].node ==> t == u
  }

  /** A run in which no state has an overlap. */
  ghost predicate AlwaysAlone(types: Reports.AttrTypes, steps: seq<Step>) {
    && After(types, steps).Some?
    && Alone(After(types, steps).value)
    && (steps != [] ==> AlwaysAlone(types, steps[..|steps| - 1]))
  }

  /** What the one begun task of a node says about the shared state: a watching task owns
      the node's entry, any other has none and no unfinished report. */
  predicate Agrees(m: Machine, task: Task) {
    match task.phase
    case Starting => true
    case Watching(i, s, _, _, _) =>
      && task.node in m.sh.subs && m.sh.subs[task.node] == s
      && task.node in m.owner && m.owner[task.node] == i
    case _ => task.node !in m.sh.subs && task.node !in m.sources
  }

  ghost predicate AllAgree(m: Machine) {
    forall t :: t in m.tasks ==> Agrees(m, m.tasks[t])
  }

  /** All messages of a batch were accepted under the one attempt `i`. */
  predicate OnlyFrom(batch: seq<nat>, i: nat) {
    forall k :: 0 <= k < |batch| ==> batch[k] == i
  }

  ghost predicate Unmixed(batch: seq<nat>) {
    exists i :: OnlyFrom(batch, i)
  }

  /** Unfinished reports hold only messages of the attempt that last wrote the entry. */
  ghost predicate SourcesOwned(m: Machine) {
    forall n :: n in m.sources ==> n in m.owner && OnlyFrom(m.sources[n], m.owner[n])
  }

  ghost predicate BatchesUnmixed(m: Machine) {
    forall k :: 0 <= k < |m.batches| ==> Unmixed(m.batches[k])
  }

  /** Attempts are numbered apart: the next number is above every one in use. */
  ghost predicate AttemptsBelow(m: Machine) {
    && (forall t :: t in m.tasks ==> t < m.next)
    && (forall t :: t in m.tasks && m.tasks[t].phase.Establishing? ==> m.tasks[t].phase.inst < m.next)
    && (forall t :: t in m.tasks && m.tasks[t].phase.Watching? ==> m.tasks[t].phase.inst < m.next)
    && (forall n :: n in m.owner ==> m.owner[n] < m.next)
  }

  // ------------------------------------------------------------ tasks and entries

  /** The steps a begun task takes, or that end it. */
  predicate ByTask(step: Step) {
    step.Prime? || step.Establish? || step.Fail? || step.Retry? || step.Poll? || step.Destroy? || step.Begin?
  }

  /** Nothing about the entries changed, and only a node with an entry gained an
      unfinished report. */
  ghost predicate EntriesLeft(m: Machine, after: Machine) {
    && after.sh.subs == m.sh.subs && after.owner == m.owner
    && (forall t :: t in m.tasks ==> t in after.tasks && after.tasks[t].node == m.tasks[t].node
                                     && after.tasks[t].phase == m.tasks[t].phase)
    && (forall t :: t in after.tasks && t !in m.tasks ==> after.tasks[t].phase.Starting?)
    && (forall n :: n in after.sources ==> n in m.sources || n in m.sh.subs)
  }

  lemma {:induction false} DeliveryLeavesEntries(types: Reports.AttrTypes, m: Machine, from: Source,
      report: Reports.Report, now: Time)
    ensures EntriesLeft(m, Delivered(types, m, from, report, now))
  {
    hide Handle, Batch;
    HandlingKeepsEntries(types, m.sh, from, report, now);
  }

  lemma {:induction false} OthersLeaveEntries(types: Reports.AttrTypes, m: Machine, step: Step)
    requires HandlesMatch(m) && Enabled(m, step) && !ByTask(step)
    ensures EntriesLeft(m, Next(types, m, step))
  {
    hide Cancelled, Delivered;
    match step {
      case Deliver(from, report, now) => DeliveryLeavesEntries(types, m, from, report, now);
      case Start(_) => CancelledTasks(m.tasks, m.running, step.node);
      case Stop(_) => CancelledTasks(m.tasks, m.running, step.node);
      case Shutdown =>
    }
  }

  /** Any other task of the node would overlap, so a task's step leaves all other begun
      tasks' nodes as they are. */
  lemma {:induction false} TaskLeavesOthers(types: Reports.AttrTypes, m: Machine, step: Step, n: NodeId)
    requires Enabled(m, step) && ByTask(step) && m.tasks[step.task].node != n
    ensures var after := Next(types, m, step);
            && (n in after.sh.subs <==> n in m.sh.subs) && (n in m.sh.subs ==> after.sh.subs[n] == m.sh.subs[n])
            && (n in after.owner <==> n in m.owner) && (n in m.owner ==> after.owner[n] == m.owner[n])
            && (n in after.sources <==> n in m.sources) && (n in m.sources ==> after.sources[n] == m.sources[n])
  {
    hide NoteAll, FoundSilent, Polled;
    if step.Poll? {
      PollKeeps(m, step.task);
      PollOutcome(m, step.task);
    }
  }

  lemma {:induction false} TaskLeavesTasks(types: Reports.AttrTypes, m: Machine, step: Step)
    requires Enabled(m, step) && ByTask(step)
    ensures var after := Next(types, m, step);
            forall u :: u in after.tasks && u != step.task ==> u in m.tasks && after.tasks[u] == m.tasks[u]
  {
    hide NoteAll, FoundSilent, Polled, Clear, Own, Lose, Released;
    if step.Poll? {
      PollKeeps(m, step.task);
      PollOutcome(m, step.task);
    }
  }

  /** The task itself, if it is still there, agrees with what it just did. */
  lemma {:induction false} OwnStepAgrees(types: Reports.AttrTypes, m: Machine, step: Step)
    requires Enabled(m, step) && ByTask(step) && Agrees(m, m.tasks[step.task])
    requires step.Begin? ==> m.tasks[step.task].node !in m.sh.subs
    ensures var after := Next(types, m, step);
            step.task in after.tasks ==> Agrees(after, after.tasks[step.task])
  {
    hide NoteAll, FoundSilent, Polled;
    if step.Poll? {
      PollKeeps(m, step.task);
      PollOutcome(m, step.task);
    }
  }

  /** When a task begins and none of its node has, the node has no entry. */
  lemma {:induction false} NoEntryAtBegin(types: Reports.AttrTypes, m: Machine, step: Step)
    requires EntriesGuarded(m) && Enabled(m, step) && step.Begin?
    requires Alone(Next(types, m, step))
    ensures m.tasks[step.task].node !in m.sh.subs
  {
    hide Clear;
    var n, after := m.tasks[step.task].node, Next(types, m, step);
    assert Begun(after, step.task);
    if n in m.sh.subs {
      assert Guarded(m, n, m.sh.subs[n]);
      var t :| Guards(m, t, n, m.sh.subs[n]);
      assert t == step.task by { assert Begun(after, t); }
      assert false;
    }
  }

  lemma {:induction false} AgreeKept(types: Reports.AttrTypes, m: Machine, step: Step)
    requires Inv(m) && AllAgree(m) && Alone(m) && Enabled(m, step) && Alone(Next(types, m, step))
    ensures AllAgree(Next(types, m, step))
  {
    hide Next, Enabled, Agrees, EntriesLeft, EntriesGuarded, HandlesMatch, HistoryMatches;
    var after := Next(types, m, step);
    if ByTask(step) {
      TaskLeavesTasks(types, m, step);
      forall t | t in after.tasks ensures Agrees(after, after.tasks[t]) {
        TaskAgrees(types, m, step, t);
      }
    } else {
      OthersLeaveEntries(types, m, step);
      forall t | t in after.tasks ensures Agrees(after, after.tasks[t]) {
        BystanderAgrees(m, after, t);
      }
    }
  }

  lemma {:induction false} TaskAgrees(types: Reports.AttrTypes, m: Machine, step: Step, t: TaskId)
    requires Inv(m) && AllAgree(m) && Alone(m) && Enabled(m, step) && Alone(Next(types, m, step))
    requires ByTask(step) && t in Next(types, m, step).tasks
    ensures Agrees(Next(types, m, step), Next(types, m, step).tasks[t])
  {
    hide Next, EntriesGuarded, HandlesMatch, HistoryMatches;
    var after := Next(types, m, step);
    TaskLeavesTasks(types, m, step);
    if t == step.task {
      if step.Begin? {
        NoEntryAtBegin(types, m, step);
      }
      OwnStepAgrees(types, m, step);
    } else if step.Destroy? && !Begun(m, step.task) {
      UnbegunLeavesAll(types, m, step);
    } else if Begun(m, t) {
      OneNodeEach(types, m, step, t);
      TaskLeavesOthers(types, m, step, m.tasks[t].node);
    }
  }

  lemma UnbegunLeavesAll(types: Reports.AttrTypes, m: Machine, step: Step)
    requires Enabled(m, step) && step.Destroy? && !Begun(m, step.task)
    ensures var after := Next(types, m, step); after.sh == m.sh && after.owner == m.owner && after.sources == m.sources
  {
  }

  lemma {:induction false} OneNodeEach(types: Reports.AttrTypes, m: Machine, step: Step, t: TaskId)
    requires Alone(m) && Enabled(m, step) && Alone(Next(types, m, step))
    requires ByTask(step) && t != step.task && Begun(m, t) && (step.Begin? || Begun(m, step.task))
    ensures m.tasks[t].node != m.tasks[step.task].node
  {
    hide Clear;
    if step.Begin? {
      assert Begun(Next(types, m, step), step.task) && Begun(Next(types, m, step), t);
    } else {
      assert Begun(m, step.task);
    }
  }

  lemma {:induction false} BystanderAgrees(m: Machine, after: Machine, t: TaskId)
    requires AllAgree(m) && EntriesLeft(m, after) && t in after.tasks
    ensures Agrees(after, after.tasks[t])
  {
    if t in m.tasks {
      assert Agrees(m, m.tasks[t]);
    }
  }

  // ------------------------------------------------------- unfinished reports

  lemma {:induction false} EntryOwned(m: Machine, n: NodeId)
    requires EntriesGuarded(m) && AllAgree(m) && n in m.sh.subs
    ensures n in m.owner
  {
    assert Guarded(m, n, m.sh.subs[n]);
    var t :| Guards(m, t, n, m.sh.subs[n]);
    assert Agrees(m, m.tasks[t]);
  }

  lemma {:induction false} BatchFromOwner(m: Machine, n: NodeId)
    requires EntriesGuarded(m) && AllAgree(m) && SourcesOwned(m) && n in m.sh.subs
    ensures n in m.owner && OnlyFrom(Batch(m, n), m.owner[n])
  {
    EntryOwned(m, n);
  }

  lemma {:induction false} DeliverySources(types: Reports.AttrTypes, m: Machine, from: Source,
      report: Reports.Report, now: Time)
    requires EntriesGuarded(m) && AllAgree(m) && SourcesOwned(m) && BatchesUnmixed(m)
    ensures SourcesOwned(Delivered(types, m, from, report, now))
    ensures BatchesUnmixed(Delivered(types, m, from, report, now))
  {
    hide Handle, Batch, EntriesGuarded, AllAgree;
    if Accepts(m.sh, from) {
      BatchFromOwner(m, from.node);
      assert Unmixed(Batch(m, from.node));
    }
  }

  lemma {:induction false} TaskSources(types: Reports.AttrTypes, m: Machine, step: Step)
    requires Enabled(m, step) && ByTask(step) && Agrees(m, m.tasks[step.task])
    requires SourcesOwned(m) && BatchesUnmixed(m)
    ensures SourcesOwned(Next(types, m, step)) && BatchesUnmixed(Next(types, m, step))
  {
    hide NoteAll, FoundSilent, Polled, Own, Lose, Release, Unmixed, OnlyFrom;
    if step.Poll? {
      PollKeeps(m, step.task);
      PollOutcome(m, step.task);
    }
  }

  lemma {:induction false} SourcesKept(types: Reports.AttrTypes, m: Machine, step: Step)
    requires Inv(m) && AllAgree(m) && SourcesOwned(m) && BatchesUnmixed(m) && Enabled(m, step)
    ensures SourcesOwned(Next(types, m, step)) && BatchesUnmixed(Next(types, m, step))
  {
    hide EntriesGuarded, HandlesMatch, HistoryMatches, Cancelled, Delivered, Agrees, OnlyFrom, Unmixed;
    match step {
      case Deliver(from, report, now) => DeliverySources(types, m, from, report, now);
      case Start(_) =>
      case Stop(_) =>
      case Shutdown =>
      case _ =>
        hide Next;
        TaskSources(types, m, step);
    }
  }

  // ------------------------------------------------------------- what is sent

  predicate Connects(e: StackEvent, n: NodeId) {
    e.NodeState? && e.node == n && e.state.Connected?
  }

  predicate Loses(e: StackEvent, n: NodeId) {
    e.NodeState? && e.node == n && e.state.Reconnecting?
  }

  predicate IsNews(e: StackEvent) {
    e.AttributesChanged? || e.NodeEvent?
  }

  predicate UpSince(events: seq<StackEvent>, n: NodeId, j: nat) {
    && 1 <= j < |events|
    && Connects(events[j - 1], n)
    && events[j].PrimingSnapshot? && events[j].node == n
    && forall l :: j < l < |events| ==> !Loses(events[l], n)
  }

  /** The last thing said of the node's connection is an adjacent pair of `Connected` and
      its priming snapshot. */
  ghost predicate Up(events: seq<StackEvent>, n: NodeId) {
    exists j :: UpSince(events, n, j)
  }

  /** Every change and every event of a node comes while the node is up. */
  ghost predicate Orderly(events: seq<StackEvent>) {
    forall k :: 0 <= k < |events| && IsNews(events[k]) ==> Up(events[..k], events[k].node)
  }

  ghost predicate EntriesUp(m: Machine) {
    forall n :: n in m.sh.subs ==> Up(m.sh.events, n)
  }

  lemma {:induction false} UpSnoc(events: seq<StackEvent>, e: StackEvent, n: NodeId)
    requires Up(events, n) && !Loses(e, n)
    ensures Up(events + [e], n)
  {
    var j :| UpSince(events, n, j);
    assert UpSince(events + [e], n, j);
  }

  lemma {:induction false} OrderlySnoc(events: seq<StackEvent>, e: StackEvent)
    requires Orderly(events) && (IsNews(e) ==> Up(events, e.node))
    ensures Orderly(events + [e])
  {
    hide Up;
    var more := events + [e];
    forall k | 0 <= k < |more| && IsNews(more[k]) ensures Up(more[..k], more[k].node) {
      assert more[..k] == if k < |events| then events[..k] else events;
    }
  }

  predicate AllNewsOf(more: seq<StackEvent>, n: NodeId) {
    forall k :: 0 <= k < |more| ==> IsNews(more[k]) && more[k].node == n
  }

  lemma {:induction false} OrderlyNews(events: seq<StackEvent>, more: seq<StackEvent>, n: NodeId)
    requires Orderly(events) && Up(events, n) && AllNewsOf(more, n)
    ensures Orderly(events + more)
    ensures forall u :: Up(events, u) ==> Up(events + more, u)
  {
    hide Up, Orderly;
    if more == [] {
      assert events + more == events;
    } else {
      var front, last := more[..|more| - 1], more[|more| - 1];
      assert more[|more| - 1] == last;
      OrderlyNews(events, front, n);
      assert events + more == (events + front) + [last];
      OrderlySnoc(events + front, last);
      forall u | Up(events, u) ensures Up(events + more, u) {
        UpSnoc(events + front, last, u);
      }
    }
  }

  lemma {:induction false} HandledNews(types: Reports.AttrTypes, sh: Shared, from: Source,
      report: Reports.Report, now: Time)
      returns (more: seq<StackEvent>)
    ensures Handle(types, sh, from, report, now).events == sh.events + more && AllNewsOf(more, from.node)
    ensures !Accepts(sh, from) ==> more == []
  {
    hide NoteAll, FoundSilent, Polled, NewOnes, Absorbing;
    if !Accepts(sh, from) {
      return [];
    }
    var n := from.node;
    var released := Absorbing(types, sh.pending, n, report).1;
    var changed := if released.Some? && released.value != [] then [AttributesChanged(n, released.value)] else [];
    more := changed + NodeEvents(n, NewOnes(sh.lastEvent, n, report.events));
    assert sh.events + more == sh.events + changed + NodeEvents(n, NewOnes(sh.lastEvent, n, report.events));
  }

  lemma {:induction false} DeliveryInOrder(types: Reports.AttrTypes, m: Machine, from: Source,
      report: Reports.Report, now: Time)
    requires Orderly(m.sh.events) && EntriesUp(m)
    ensures var after := Delivered(types, m, from, report, now); Orderly(after.sh.events) && EntriesUp(after)
  {
    hide Handle, Up, Orderly, Batch;
    if Accepts(m.sh, from) {
      var more := HandledNews(types, m.sh, from, report, now);
      HandlingKeepsEntries(types, m.sh, from, report, now);
      OrderlyNews(m.sh.events, more, from.node);
    }
  }

  lemma {:induction false} OwningInOrder(sh: Shared, n: NodeId, sub: SubId, maxInterval: nat,
      attributes: map<string, Value>, now: Time)
    requires Orderly(sh.events) && forall u :: u in sh.subs ==> Up(sh.events, u)
    ensures var after := Own(sh, n, sub, maxInterval, attributes, now);
            Orderly(after.events) && forall u :: u in after.subs ==> Up(after.events, u)
  {
    hide Up, Orderly;
    var after := Own(sh, n, sub, maxInterval, attributes, now);
    var connected, priming := NodeState(n, Connected(maxInterval)), PrimingSnapshot(n, attributes);
    assert after.events == (sh.events + [connected]) + [priming];
    OrderlySnoc(sh.events, connected);
    OrderlySnoc(sh.events + [connected], priming);
    forall u | u in after.subs ensures Up(after.events, u) {
      if u == n {
        NowUp(sh.events, n, maxInterval, attributes);
      } else {
        UpSnoc(sh.events, connected, u);
        UpSnoc(sh.events + [connected], priming, u);
      }
    }
  }

  lemma {:induction false} NowUp(events: seq<StackEvent>, n: NodeId, maxInterval: nat, attributes: map<string, Value>)
    ensures Up(events + [NodeState(n, Connected(maxInterval))] + [PrimingSnapshot(n, attributes)], n)
  {
    assert UpSince(events + [NodeState(n, Connected(maxInterval))] + [PrimingSnapshot(n, attributes)], n, |events| + 1);
  }

  /** A loss may be announced of a node without an entry. */
  lemma {:induction false} LosingInOrder(sh: Shared, n: NodeId)
    requires Orderly(sh.events) && (forall u :: u in sh.subs ==> Up(sh.events, u)) && n !in sh.subs
    ensures var after := Lose(sh, n); Orderly(after.events) && forall u :: u in after.subs ==> Up(after.events, u)
  {
    hide Up, Orderly;
    OrderlySnoc(sh.events, NodeState(n, Reconnecting));
    forall u | u in sh.subs ensures Up(Lose(sh, n).events, u) {
      UpSnoc(sh.events, NodeState(n, Reconnecting), u);
    }
  }

  lemma {:induction false} TaskInOrder(types: Reports.AttrTypes, m: Machine, step: Step)
    requires Enabled(m, step) && ByTask(step) && Agrees(m, m.tasks[step.task])
    requires Orderly(m.sh.events) && EntriesUp(m)
    ensures var after := Next(types, m, step); Orderly(after.sh.events) && EntriesUp(after)
  {
    hide Up, Orderly, NoteAll, FoundSilent, Polled, Own, Lose;
    if step.Poll? {
      PollKeeps(m, step.task);
      PollOutcome(m, step.task);
    }
    var n := m.tasks[step.task].node;
    match step {
      case Establish(t, sub, maxInterval, now) =>
        OwningInOrder(m.sh, n, sub, maxInterval, Snapshot(m.tasks[t].phase.acc), now);
      case Fail(_) =>
        LosingInOrder(m.sh, n);
      case Poll(_) =>
        LosingInOrder(Released(m.sh, m.tasks[step.task]), n);
      case _ =>
    }
  }

  lemma {:induction false} SentInOrder(types: Reports.AttrTypes, m: Machine, step: Step)
    requires AllAgree(m) && Orderly(m.sh.events) && EntriesUp(m) && Enabled(m, step)
    ensures var after := Next(types, m, step); Orderly(after.sh.events) && EntriesUp(after)
  {
    hide Up, Orderly, Cancelled, Delivered, Agrees;
    match step {
      case Deliver(from, report, now) => DeliveryInOrder(types, m, from, report, now);
      case Start(_) =>
      case Stop(_) =>
      case Shutdown =>
      case _ =>
        hide Next;
        TaskInOrder(types, m, step);
    }
  }

  // ------------------------------------------------------------------- whole runs

  /** In a run without overlap: each batch released was accepted under one subscription, an
      unfinished report holds messages of the node's last subscription only, and every change
      and every event of a node follows an adjacent `Connected` and `PrimingSnapshot` pair
      with no `Reconnecting` of that node between. */
  lemma {:induction false} WithoutOverlap(types: Reports.AttrTypes, steps: seq<Step>)
    requires AlwaysAlone(types, steps)
    ensures var m := After(types, steps).value;
            AllAgree(m) && SourcesOwned(m) && BatchesUnmixed(m) && Orderly(m.sh.events) && EntriesUp(m)
  {
    hide Next, Inv, Alone, AllAgree, SourcesOwned, BatchesUnmixed, Orderly, EntriesUp;
    if steps == [] {
      NothingSent();
    } else {
      var front, step := steps[..|steps| - 1], steps[|steps| - 1];
      var m := After(types, front).value;
      WithoutOverlap(types, front);
      ReachableInv(types, front);
      AgreeKept(types, m, step);
      SourcesKept(types, m, step);
      SentInOrder(types, m, step);
    }
  }

  lemma NothingSent()
    ensures AllAgree(INITIAL) && SourcesOwned(INITIAL) && BatchesUnmixed(INITIAL)
    ensures Orderly(INITIAL.sh.events) && EntriesUp(INITIAL)
  {
  }

  /** Attempts are told apart by their numbers: the next one is above every one in use. */
  lemma {:induction false} AttemptsAreNumbered(types: Reports.AttrTypes, steps: seq<Step>)
    requires After(types, steps).Some?
    ensures AttemptsBelow(After(types, steps).value)
  {
    hide Next, AttemptsBelow;
    if steps == [] {
      NoAttempts();
    } else {
      var front := steps[..|steps| - 1];
      AttemptsAreNumbered(types, front);
      AttemptsKept(types, After(types, front).value, steps[|steps| - 1]);
    }
  }

  lemma NoAttempts()
    ensures AttemptsBelow(INITIAL)
  {
  }

  lemma {:induction false} AttemptsKept(types: Reports.AttrTypes, m: Machine, step: Step)
    requires AttemptsBelow(m) && Enabled(m, step)
    ensures AttemptsBelow(Next(types, m, step))
  {
    hide NoteAll, FoundSilent, Polled, Clear, Own, Lose, Released, Cancelled, Delivered, Snapshot,
      Reports.ApplyAll, Reports.Changes;
    if step.Poll? {
      PollKeeps(m, step.task);
      PollOutcome(m, step.task);
    }
    match step {
      case Start(_) => CancelledTasks(m.tasks, m.running, step.node);
      case Stop(_) => CancelledTasks(m.tasks, m.running, step.node);
      case Deliver(from, report, now) =>
        hide AttemptsBelow;
        DeliveryKeepsAttempts(types, m, from, report, now);
      case _ =>
    }
  }

  lemma {:induction false} DeliveryKeepsAttempts(types: Reports.AttrTypes, m: Machine, from: Source,
      report: Reports.Report, now: Time)
    requires AttemptsBelow(m)
    ensures AttemptsBelow(Delivered(types, m, from, report, now))
  {
    hide Handle, Batch;
  }

  // ----------------------------------------------------------------- with overlap

  /** A supervisor is replaced while its subscription stands, and the replacement begins
      before the old task is destroyed. */
  const OVERLAPPING: seq<Step> :=
    [Start(1), Begin(0), Establish(0, 7, 60, 0), Start(1), Begin(2)]

  const REPORT_MORE := Reports.Report(Some([]), [], Some(true))
  const REPORT_LAST := Reports.Report(Some([]), [5], None)

  lemma {:induction false} OneMore(types: Reports.AttrTypes, steps: seq<Step>, step: Step)
    requires After(types, steps).Some? && Enabled(After(types, steps).value, step)
    ensures After(types, steps + [step]) == Some(Next(types, After(types, steps).value, step))
  {
    assert (steps + [step])[..|steps|] == steps;
  }

  lemma {:induction false} WatchingState(types: Reports.AttrTypes)
    ensures After(types, OVERLAPPING[..3]) == Some(INITIAL.(
      sh := Own(INITIAL.sh, 1, 7, 60, map[], 0),
      running := map[1 := 0], tasks := map[0 := Task(1, Watching(1, 7, 0, 60, 0), false)],
      next := 2, owner := map[1 := 1]))
  {
    var s1, s2, s3 := OVERLAPPING[..1], OVERLAPPING[..2], OVERLAPPING[..3];
    assert s1 == [] + [Start(1)] && s2 == s1 + [OVERLAPPING[1]] && s3 == s2 + [OVERLAPPING[2]];
    OneMore(types, [], OVERLAPPING[0]);
    OneMore(types, s1, OVERLAPPING[1]);
    OneMore(types, s2, OVERLAPPING[2]);
    var m := After(types, s3).value;
    assert m.tasks == map[0 := Task(1, Watching(1, 7, 0, 60, 0), false)];
    assert m.owner == map[1 := 1] && m.sources == map[];
    assert m.sh == Own(Clear(INITIAL.sh, 1), 1, 7, 60, map[], 0) && Clear(INITIAL.sh, 1) == INITIAL.sh;
  }

  lemma {:induction false} OverlapState(types: Reports.AttrTypes) returns (m: Machine)
    ensures After(types, OVERLAPPING) == Some(m) && !Alone(m)
    ensures m.sh.subs == map[1 := 7] && m.sh.lastEvent == map[]
    ensures m.owner == map[1 := 1] && m.sources == map[] && m.batches == []
    ensures Live(m, 2) && m.tasks[2] == Task(1, Establishing(3, []), false)
    ensures 0 in m.tasks && m.tasks[0] == Task(1, Watching(1, 7, 0, 60, 0), true)
  {
    hide After;
    var s3, s4 := OVERLAPPING[..3], OVERLAPPING[..4];
    assert s4 == s3 + [OVERLAPPING[3]] && OVERLAPPING == s4 + [OVERLAPPING[4]];
    WatchingState(types);
    OneMore(types, s3, OVERLAPPING[3]);
    OneMore(types, s4, OVERLAPPING[4]);
    m := After(types, OVERLAPPING).value;
    assert Begun(m, 0) && Begun(m, 2);
  }

  lemma TwoSourcesMix(batch: seq<nat>)
    requires |batch| == 2 && batch[0] != batch[1]
    ensures !Unmixed(batch)
  {
  }

  lemma JustLost(events: seq<StackEvent>, n: NodeId)
    requires events != [] && Loses(events[|events| - 1], n)
    ensures !Up(events, n)
  {
  }

  /** With overlap a released batch can mix two subscriptions: the old guard's entry still
      matches the old subscription's reports after the new attempt cleared the node. */
  lemma {:induction false} OverlapMixesABatch(types: Reports.AttrTypes) returns (steps: seq<Step>)
    ensures After(types, steps).Some? && !BatchesUnmixed(After(types, steps).value)
  {
    hide After, Handle, Unmixed, Clear, Cancelled, Released, Primed;
    var m0 := OverlapState(types);
    var first, own, last :=
      Deliver(Source(1, Some(7), true), REPORT_MORE, 0), Establish(2, 8, 60, 0),
      Deliver(Source(1, Some(8), true), REPORT_LAST, 0);
    OneMore(types, OVERLAPPING, first);
    HandlingKeepsEntries(types, m0.sh, first.from, REPORT_MORE, 0);
    var m1 := Next(types, m0, first);
    OneMore(types, OVERLAPPING + [first], own);
    var m2 := Next(types, m1, own);
    OneMore(types, OVERLAPPING + [first] + [own], last);
    steps := OVERLAPPING + [first] + [own] + [last];
    assert After(types, steps).value.batches[0] == [1, 3];
    TwoSourcesMix([1, 3]);
  }

  /** ... and an event can be forwarded after the node was announced as lost. */
  lemma {:induction false} OverlapSendsAfterLoss(types: Reports.AttrTypes) returns (steps: seq<Step>)
    ensures After(types, steps).Some? && !Orderly(After(types, steps).value.sh.events)
  {
    hide After, Up, NodeEvents, Absorbing, NoteAll, NewOnes;
    var m0 := OverlapState(types);
    var fail, report := Fail(2), Deliver(Source(1, Some(7), true), REPORT_LAST, 0);
    OneMore(types, OVERLAPPING, fail);
    var m1 := Next(types, m0, fail);
    OneMore(types, OVERLAPPING + [fail], report);
    steps := OVERLAPPING + [fail] + [report];
    var more := HandledNews(types, m1.sh, report.from, REPORT_LAST, 0);
    LastIsForwarded(types, m1.sh, report.from);
    var events := After(types, steps).value.sh.events;
    JustLost(m1.sh.events, 1);
    assert events[..|m1.sh.events|] == m1.sh.events;
    assert IsNews(events[|m1.sh.events|]) by { assert more != []; assert events[|m1.sh.events|] == more[0]; }
  }

  /** ... and an old guard can be destroyed when the node's entry already is another's: what
      `disown` compares for. */
  lemma {:induction false} OverlapNeedsTheComparison(types: Reports.AttrTypes) returns (steps: seq<Step>)
    ensures After(types, steps).Some?
    ensures var m := After(types, steps).value;
            && Guards(m, 0, 1, 7) && m.sh.subs == map[1 := 8] && Enabled(m, Destroy(0))
            && Next(types, m, Destroy(0)).sh.subs == map[1 := 8]
  {
    hide After;
    var m0 := OverlapState(types);
    var own := Establish(2, 8, 60, 0);
    OneMore(types, OVERLAPPING, own);
    steps := OVERLAPPING + [own];
    var m := After(types, steps).value;
    assert m.sh.subs == map[1 := 8];
  }

  lemma {:induction false} LastIsForwarded(types: Reports.AttrTypes, sh: Shared, from: Source)
    requires Accepts(sh, from) && from.node !in sh.lastEvent
    ensures |Handle(types, sh, from, REPORT_LAST, 0).events| > |sh.events|
  {
    hide Absorbing;
    assert NewOnes(sh.lastEvent, from.node, [5]) == [5];
  }
}
