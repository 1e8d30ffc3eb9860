/** From the messages of a device to the registry: what is sent to the consumer of stack
    events, and what the consumer makes of it. */
module EndToEnd {
  import opened Wrappers
  import opened Json
  import Reports
  import opened Reassembly
  import opened StackContext
  import opened Supervision
  import NoOverlap
  import opened NodeRegistry
  import opened NodeManagement
  import Availability

  // --------------------------------------------------- the batches of a whole run

  /** What a step of the protocol does to the unfinished reports. */
  function ReportOps(m: Machine, step: Step): seq<Op>
    requires Enabled(m, step)
  {
    match step
    case Stop(n) => [Drop(n)]
    case Begin(t) => [Drop(m.tasks[t].node)]
    case Retry(t) => [Drop(m.tasks[t].node)]
    case Poll(t) => if FoundSilent(m.sh, m.tasks[t]) then [Drop(m.tasks[t].node)] else []
    case Deliver(from, report, _) => if Accepts(m.sh, from) then [Message(from.node, report)] else []
    case _ => []
  }

  function ReportOpsOfRun(types: Reports.AttrTypes, steps: seq<Step>): seq<Op>
    requires After(types, steps).Some?
  {
    if steps == [] then []
    else
      var front := steps[..|steps| - 1];
      ReportOpsOfRun(types, front) + ReportOps(After(types, front).value, steps[|steps| - 1])
  }

  /** The batches of changes among everything sent to the consumer. */
  function BatchesSent(events: seq<StackEvent>): seq<(NodeId, seq<Reports.Pair>)> {
    if events == [] then []
    else
      var front, e := BatchesSent(events[..|events| - 1]), events[|events| - 1];
      if e.AttributesChanged? then front + [(e.node, e.changes)] else front
  }

  function NonEmpty(released: seq<(NodeId, seq<Reports.Pair>)>): seq<(NodeId, seq<Reports.Pair>)> {
    if released == [] then []
    else
      var front, r := NonEmpty(released[..|released| - 1]), released[|released| - 1];
      if r.1 == [] then front else front + [r]
  }

  lemma {:induction false} NoBatch(events: seq<StackEvent>, e: StackEvent)
    ensures BatchesSent(events + [e]) ==
            BatchesSent(events) + if e.AttributesChanged? then [(e.node, e.changes)] else []
  {
    assert (events + [e])[..|events|] == events;
  }

  lemma {:induction false} EventsAreNoBatches(events: seq<StackEvent>, n: NodeId, numbers: seq<nat>)
    ensures BatchesSent(events + NodeEvents(n, numbers)) == BatchesSent(events)
  {
    hide BatchesSent;
    if numbers == [] {
      assert events + [] == events;
    } else {
      var front, e := NodeEvents(n, numbers[..|numbers| - 1]), NodeEvent(n, numbers[|numbers| - 1]);
      EventsAreNoBatches(events, n, numbers[..|numbers| - 1]);
      NoBatch(events + front, e);
      assert events + NodeEvents(n, numbers) == events + front + [e];
    }
  }

  lemma {:induction false} RunSnoc(types: Reports.AttrTypes, ops: seq<Op>, op: Op)
    ensures var (pending, released) := Run(types, ops);
            Run(types, ops + [op]) ==
              if op.Drop? then (pending - {op.node}, released)
              else
                var (next, r) := Absorbing(types, pending, op.node, op.report);
                (next, if r.Some? then released + [(op.node, r.value)] else released)
  {
    hide Absorbing;
    assert (ops + [op])[..|ops|] == ops;
  }

  lemma {:induction false} NonEmptySnoc(released: seq<(NodeId, seq<Reports.Pair>)>, r: (NodeId, seq<Reports.Pair>))
    ensures NonEmpty(released + [r]) == NonEmpty(released) + if r.1 == [] then [] else [r]
  {
    assert (released + [r])[..|released|] == released;
  }

  lemma {:induction false} DeliveredBatch(types: Reports.AttrTypes, ops: seq<Op>, sh: Shared, from: Source,
      report: Reports.Report, now: Time)
    requires Run(types, ops).0 == sh.pending && BatchesSent(sh.events) == NonEmpty(Run(types, ops).1)
    requires Accepts(sh, from)
    ensures var after, r := Handle(types, sh, from, report, now), Run(types, ops + [Message(from.node, report)]);
            r.0 == after.pending && BatchesSent(after.events) == NonEmpty(r.1)
  {
    hide Absorbing, NoteAll, FoundSilent, Polled, NewOnes, NodeEvents, BatchesSent, NonEmpty, Run;
    var n := from.node;
    RunSnoc(types, ops, Message(n, report));
    var released := Absorbing(types, sh.pending, n, report).1;
    var changed := if released.Some? && released.value != [] then [AttributesChanged(n, released.value)] else [];
    EventsAreNoBatches(sh.events + changed, n, NewOnes(sh.lastEvent, n, report.events));
    assert sh.events + [] == sh.events;
    if released.Some? {
      NonEmptySnoc(Run(types, ops).1, (n, released.value));
      NoBatch(sh.events, AttributesChanged(n, released.value));
    }
  }

  lemma {:induction false} OwningIsNoBatch(events: seq<StackEvent>, connected: StackEvent, priming: StackEvent)
    requires connected.NodeState? && priming.PrimingSnapshot?
    ensures BatchesSent(events + [connected, priming]) == BatchesSent(events)
  {
    hide BatchesSent;
    NoBatch(events, connected);
    NoBatch(events + [connected], priming);
    assert events + [connected, priming] == events + [connected] + [priming];
  }

  lemma {:induction false} DeliveredShared(types: Reports.AttrTypes, m: Machine, from: Source,
      report: Reports.Report, now: Time)
    ensures Delivered(types, m, from, report, now).sh == Handle(types, m.sh, from, report, now)
    ensures !Accepts(m.sh, from) ==> Handle(types, m.sh, from, report, now) == m.sh
  {
    hide Batch, Absorbing, NoteAll, NewOnes, NodeEvents;
  }

  lemma {:induction false} BatchStep(types: Reports.AttrTypes, ops: seq<Op>, m: Machine, step: Step)
    requires Enabled(m, step)
    requires Run(types, ops).0 == m.sh.pending && BatchesSent(m.sh.events) == NonEmpty(Run(types, ops).1)
    ensures var after, r := Next(types, m, step), Run(types, ops + ReportOps(m, step));
            r.0 == after.sh.pending && BatchesSent(after.sh.events) == NonEmpty(r.1)
  {
    hide Run, BatchesSent, NonEmpty, Delivered, Handle, NoteAll, Cancelled, FoundSilent, Polled;
    if step.Poll? {
      PollKeeps(m, step.task);
      PollOutcome(m, step.task);
    }
    assert ops + [] == ops;
    match step {
      case Stop(n) => RunSnoc(types, ops, Drop(n));
      case Begin(t) => RunSnoc(types, ops, Drop(m.tasks[t].node));
      case Retry(t) => RunSnoc(types, ops, Drop(m.tasks[t].node));
      case Poll(t) =>
        RunSnoc(types, ops, Drop(m.tasks[t].node));
        NoBatch(m.sh.events, NodeState(m.tasks[t].node, Reconnecting));
      case Fail(t) => NoBatch(m.sh.events, NodeState(m.tasks[t].node, Reconnecting));
      case Establish(t, _, maxInterval, _) =>
        OwningIsNoBatch(m.sh.events, NodeState(m.tasks[t].node, Connected(maxInterval)),
                        PrimingSnapshot(m.tasks[t].node, Snapshot(m.tasks[t].phase.acc)));
      case Deliver(from, report, now) =>
        DeliveredShared(types, m, from, report, now);
        if Accepts(m.sh, from) {
          DeliveredBatch(types, ops, m.sh, from, report, now);
        }
      case _ =>
    }
  }

  /** In every run, overlap or not, the batches of changes sent to the consumer are exactly
      the non-empty releases of the accepted messages: by `ReassemblyPerNode`, each is what
      the node's own messages add up to since its last release or clearing. */
  lemma {:induction false} BatchesOfARun(types: Reports.AttrTypes, steps: seq<Step>)
    requires After(types, steps).Some?
    ensures var m, r := After(types, steps).value, Run(types, ReportOpsOfRun(types, steps));
            r.0 == m.sh.pending && BatchesSent(m.sh.events) == NonEmpty(r.1)
  {
    hide Next, Run, BatchesSent, NonEmpty, ReportOps;
    if steps == [] {
      NothingReleased(types);
    } else {
      var front := steps[..|steps| - 1];
      BatchesOfARun(types, front);
      BatchStep(types, ReportOpsOfRun(types, front), After(types, front).value, steps[|steps| - 1]);
    }
  }

  lemma NothingReleased(types: Reports.AttrTypes)
    ensures Run(types, []) == (map[], []) && BatchesSent([]) == [] && NonEmpty([]) == []
  {
  }

  // ------------------------------------------------------------- the cache of a node

  /** The last snapshot, overwritten by the later changes in order. */
  function Cache(initial: Attributes, events: seq<StackEvent>, n: NodeId): Attributes {
    if events == [] then initial
    else
      var before, e := Cache(initial, events[..|events| - 1], n), events[|events| - 1];
      if e.node != n then before
      else match e
        case PrimingSnapshot(_, attributes) => attributes
        case AttributesChanged(_, changes) => Overwrite(before, changes)
        case _ => before
  }

  function LastChange(changes: seq<Reports.Pair>, path: string): Option<Value> {
    if changes == [] then None
    else if changes[|changes| - 1].0 == path then Some(changes[|changes| - 1].1)
    else LastChange(changes[..|changes| - 1], path)
  }

  function ValueAt(attributes: Attributes, path: string): Option<Value> {
    if path in attributes then Some(attributes[path]) else None
  }

  /** What the last event that says anything of a path says of it: a value, or that there
      is none. */
  function LastWord(events: seq<StackEvent>, n: NodeId, path: string): Option<Option<Value>> {
    if events == [] then None
    else
      var e, before := events[|events| - 1], LastWord(events[..|events| - 1], n, path);
      if e.node != n then before
      else match e
        case PrimingSnapshot(_, attributes) => Some(ValueAt(attributes, path))
        case AttributesChanged(_, changes) =>
          if LastChange(changes, path).Some? then Some(LastChange(changes, path)) else before
        case _ => before
  }

  lemma {:induction false} OverwriteAt(attributes: Attributes, changes: seq<Reports.Pair>, path: string)
    ensures ValueAt(Overwrite(attributes, changes), path) ==
            if LastChange(changes, path).Some? then LastChange(changes, path) else ValueAt(attributes, path)
  {
    if changes != [] {
      OverwriteAt(attributes, changes[..|changes| - 1], path);
    }
  }

  /** Path by path, the cache holds what was last said of the path. */
  lemma {:induction false} CacheAt(initial: Attributes, events: seq<StackEvent>, n: NodeId, path: string)
    ensures ValueAt(Cache(initial, events, n), path) == LastWord(events, n, path).GetOr(ValueAt(initial, path))
  {
    hide Overwrite, LastChange, ValueAt;
    if events != [] {
      var front, e := events[..|events| - 1], events[|events| - 1];
      CacheAt(initial, front, n, path);
      if e.AttributesChanged? {
        OverwriteAt(Cache(initial, front, n), e.changes, path);
      }
    }
  }

  /** The events the consumer has taken, in order. */
  function Taken(ops: seq<Availability.Op>): seq<StackEvent> {
    if ops == [] then []
    else
      var front, op := Taken(ops[..|ops| - 1]), ops[|ops| - 1];
      if op.Event? then front + [op.ev] else front
  }

  /** No command commissions, interviews or removes the node. */
  predicate LeftAlone(ops: seq<Availability.Op>, n: NodeId) {
    forall k :: 0 <= k < |ops| ==> ops[k].Event? || ops[k].Expiry? || ops[k].node != n
  }

  lemma {:induction false} CacheStep(s: Consumer, op: Availability.Op, n: NodeId)
    requires n in s.nodes && (op.Event? || op.Expiry? || op.node != n)
    ensures var after := Availability.Do(s, op);
            && n in after.nodes
            && after.nodes[n].attributes ==
                 if op.Event? then Cache(s.nodes[n].attributes, [op.ev], n) else s.nodes[n].attributes
  {
    hide Overwrite, AttributeUpdates;
    if op.Event? {
      assert [op.ev][..0] == [];
    }
  }

  lemma {:induction false} CacheSnoc(initial: Attributes, events: seq<StackEvent>, e: StackEvent, n: NodeId)
    ensures Cache(initial, events + [e], n) == Cache(Cache(initial, events, n), [e], n)
  {
    assert (events + [e])[..|events|] == events && [e][..0] == [];
  }

  /** As long as no command touches the node, its attributes in the registry are the last
      snapshot taken, overwritten by the changes taken since, in order, whatever expiries
      and other nodes' commands come between. */
  lemma {:induction false} RegistryIsTheCache(records: map<NodeId, Attributes>, ops: seq<Availability.Op>, n: NodeId)
    requires n in records && LeftAlone(ops, n)
    ensures var s := Availability.Run(records, ops).0;
            n in s.nodes && s.nodes[n].attributes == Cache(records[n], Taken(ops), n)
  {
    hide Cache, Overwrite, Availability.Do, Availability.LastHandled;
    if ops == [] {
      NothingTaken(records[n], n);
    } else {
      var front, op := ops[..|ops| - 1], ops[|ops| - 1];
      RegistryIsTheCache(records, front, n);
      CacheStep(Availability.Run(records, front).0, op, n);
      if op.Event? {
        CacheSnoc(records[n], Taken(front), op.ev, n);
      }
    }
  }

  lemma NothingTaken(initial: Attributes, n: NodeId)
    ensures Cache(initial, [], n) == initial
  {
  }

  // ----------------------------------------------------------- with commands as well

  /** What an operation says of a path of a node that is known: all of its attributes, some of
      them, or nothing. */
  function SaidOf(op: Availability.Op, n: NodeId, path: string): Option<Option<Value>> {
    match op
    case Event(PrimingSnapshot(m, attributes)) => if m == n then Some(ValueAt(attributes, path)) else None
    case Event(AttributesChanged(m, changes)) =>
      if m == n && LastChange(changes, path).Some? then Some(LastChange(changes, path)) else None
    case Commission(m, attributes) => if m == n then Some(ValueAt(attributes, path)) else None
    case Interview(m, attributes) => if m == n then Some(ValueAt(attributes, path)) else None
    case _ => None
  }

  /** Whether the node is known after a run, and what was last said of the path while it was:
      a commissioned node starts afresh, and of a removed one nothing is left. */
  function LastSaid(records: map<NodeId, Attributes>, ops: seq<Availability.Op>, n: NodeId, path: string)
      : Option<Option<Value>> {
    if ops == [] then if n in records then Some(ValueAt(records[n], path)) else None
    else
      var before, op := LastSaid(records, ops[..|ops| - 1], n, path), ops[|ops| - 1];
      if op == Availability.Decommission(n) then None
      else if before.None? && !(op.Commission? && op.node == n) then None
      else if SaidOf(op, n, path).Some? then SaidOf(op, n, path)
      else before
  }

  lemma {:induction false} SaidIsHeld(s: Consumer, op: Availability.Op, n: NodeId, path: string)
    ensures var after, said := Availability.Do(s, op), SaidOf(op, n, path);
            && (n in after.nodes <==>
                  op != Availability.Decommission(n) && (n in s.nodes || (op.Commission? && op.node == n)))
            && (n in after.nodes ==>
                  ValueAt(after.nodes[n].attributes, path) ==
                  if said.Some? then said.value else ValueAt(s.nodes[n].attributes, path))
            && (op.Commission? && op.node == n ==> said.Some?)
  {
    hide Overwrite, AttributeUpdates, LastChange, ValueAt;
    if op.Event? && op.ev.AttributesChanged? && op.ev.node == n && n in s.nodes {
      OverwriteAt(s.nodes[n].attributes, op.ev.changes, path);
    }
  }

  /** Whatever happens, interviews, commissionings and removals included, the registry holds the
      nodes that are known and of each of their paths the last word said of it. */
  lemma {:induction false} RegistryHoldsTheLastWord(records: map<NodeId, Attributes>, ops: seq<Availability.Op>,
      n: NodeId, path: string)
    ensures var nodes := Availability.Run(records, ops).0.nodes;
            LastSaid(records, ops, n, path) == if n in nodes then Some(ValueAt(nodes[n].attributes, path)) else None
  {
    hide Availability.Do, Availability.LastHandled, SaidOf, ValueAt;
    if ops != [] {
      RegistryHoldsTheLastWord(records, ops[..|ops| - 1], n, path);
      SaidIsHeld(Availability.Run(records, ops[..|ops| - 1]).0, ops[|ops| - 1], n, path);
    }
  }

  /** After a snapshot nothing is left of what was recorded before. */
  lemma {:induction false} SnapshotDecides(a: Attributes, b: Attributes, events: seq<StackEvent>, n: NodeId, j: nat)
    requires j < |events| && events[j].PrimingSnapshot? && events[j].node == n
    ensures Cache(a, events, n) == Cache(b, events, n)
  {
    hide Overwrite;
    if j < |events| - 1 {
      SnapshotDecides(a, b, events[..|events| - 1], n, j);
    }
  }

  lemma {:induction false} PrefixInOrder(events: seq<StackEvent>, taken: seq<StackEvent>)
    requires NoOverlap.Orderly(events) && taken <= events
    ensures NoOverlap.Orderly(taken)
  {
    hide NoOverlap.Up;
    forall k | 0 <= k < |taken| && NoOverlap.IsNews(taken[k]) ensures NoOverlap.Up(taken[..k], taken[k].node) {
      assert events[k] == taken[k] && events[..k] == taken[..k];
    }
  }

  /** End to end, without overlap: however far the consumer is behind, every change and
      event it took of a node follows the node's `Connected` and its snapshot with no
      `Reconnecting` between, and the node's attributes are those of its last snapshot
      overwritten by the later changes; once it took a change or an event nothing of the
      stored record is left in them. */
  lemma {:induction false} CacheRefinement(types: Reports.AttrTypes, steps: seq<Step>,
      records: map<NodeId, Attributes>,
                        ops: seq<Availability.Op>, n: NodeId)
    requires NoOverlap.AlwaysAlone(types, steps) && Taken(ops) <= After(types, steps).value.sh.events
    requires n in records && LeftAlone(ops, n)
    ensures var s, taken := Availability.Run(records, ops).0, Taken(ops);
            && NoOverlap.Orderly(taken)
            && n in s.nodes && s.nodes[n].attributes == Cache(records[n], taken, n)
            && (forall k :: 0 <= k < |taken| && NoOverlap.IsNews(taken[k]) && taken[k].node == n ==>
                  s.nodes[n].attributes == Cache(map[], taken, n))
  {
    hide Cache, NoOverlap.Orderly, Availability.Run, LeftAlone, After;
    var taken := Taken(ops);
    NoOverlap.WithoutOverlap(types, steps);
    PrefixInOrder(After(types, steps).value.sh.events, taken);
    RegistryIsTheCache(records, ops, n);
    forall k | 0 <= k < |taken| && NoOverlap.IsNews(taken[k]) && taken[k].node == n
      ensures Cache(records[n], taken, n) == Cache(map[], taken, n)
    {
      var j := NewsAfterSnapshot(taken, k);
      SnapshotDecides(records[n], map[], taken, n, j);
    }
  }

  lemma {:induction false} NewsAfterSnapshot(events: seq<StackEvent>, k: nat) returns (j: nat)
    requires NoOverlap.Orderly(events) && k < |events| && NoOverlap.IsNews(events[k])
    ensures j < k && events[j].PrimingSnapshot? && events[j].node == events[k].node
  {
    assert NoOverlap.Up(events[..k], events[k].node);
    j :| NoOverlap.UpSince(events[..k], events[k].node, j);
  }
}
