/** What the consumer of stack events keeps over whole runs, with nodes commissioned,
    interviewed and removed in between and with any expiry signals, stale ones included. */
module Availability {
  import Reports
  import opened Reassembly
  import opened StackContext
  import opened NodeRegistry
  import opened NodeManagement

  datatype Op =
    | Event(ev: StackEvent)
    | Expiry(node: NodeId)
    | Commission(node: NodeId, attributes: Attributes)
    | Interview(node: NodeId, attributes: Attributes)
    | Decommission(node: NodeId)

  function Do(s: Consumer, op: Op): Consumer {
    match op
    case Event(ev) => Handled(s, ev)
    case Expiry(n) => GraceExpired(s, n)
    case Commission(n, attributes) =>
      s.(nodes := s.nodes[n := Entry(false, attributes)], sent := s.sent + [NodeAdded(n, Entry(false, attributes))])
    case Interview(n, attributes) => Updated(s.(nodes := WithAttributes(s.nodes, n, attributes)), n)
    case Decommission(n) => s.(nodes := s.nodes - {n}, sent := s.sent + [NodeRemoved(n)])
  }

  /** The connection state last handled, of each node that was known when it arrived. */
  function LastHandled(s: Consumer, last: map<NodeId, ConnState>, op: Op): map<NodeId, ConnState> {
    if op.Event? && op.ev.NodeState? && op.ev.node in s.nodes then last[op.ev.node := op.ev.state] else last
  }

  /** Where a run starts: every recorded node unavailable, nothing handled. */
  function Started(records: map<NodeId, Attributes>): Consumer {
    Consumer(map n | n in records :: Entry(false, records[n]), {}, [], [])
  }

  function Run(records: map<NodeId, Attributes>, ops: seq<Op>): (Consumer, map<NodeId, ConnState>) {
    if ops == [] then (Started(records), map[])
    else
      var (s, last) := Run(records, ops[..|ops| - 1]);
      (Do(s, ops[|ops| - 1]), LastHandled(s, last, ops[|ops| - 1]))
  }

  predicate LastWas(last: map<NodeId, ConnState>, n: NodeId, reconnecting: bool) {
    n in last && last[n].Reconnecting? == reconnecting
  }

  // -------------------------------------------------------------- availability

  /** A timer runs only for a node last handled as lost, and for every available one. */
  predicate TimersMatch(s: Consumer, last: map<NodeId, ConnState>) {
    && (forall n :: n in s.timers ==> LastWas(last, n, true))
    && (forall n :: n in s.nodes && s.nodes[n].available && LastWas(last, n, true) ==> n in s.timers)
    && (forall n :: n in s.nodes && s.nodes[n].available ==> n in last)
  }

  lemma {:induction false} TimersKept(s: Consumer, last: map<NodeId, ConnState>, op: Op)
    requires TimersMatch(s, last)
    ensures TimersMatch(Do(s, op), LastHandled(s, last, op))
  {
    hide Overwrite, AttributeUpdates;
  }

  /** In every reachable state an available node last handled as lost has its grace timer,
      and a timer never stands for a node last handled as connected. */
  lemma {:induction false} AvailabilityInvariant(records: map<NodeId, Attributes>, ops: seq<Op>)
    ensures TimersMatch(Run(records, ops).0, Run(records, ops).1)
  {
    hide Do, LastHandled;
    if ops != [] {
      AvailabilityInvariant(records, ops[..|ops| - 1]);
      TimersKept(Run(records, ops[..|ops| - 1]).0, Run(records, ops[..|ops| - 1]).1, ops[|ops| - 1]);
    }
  }

  /** What a known node's availability is after an op: connecting makes it available, an
      expired grace of a lost node makes it unavailable, commissioning starts it
      unavailable, and nothing else changes it. */
  lemma {:induction false} AvailabilityChanges(records: map<NodeId, Attributes>, ops: seq<Op>, op: Op, n: NodeId)
    requires n in Run(records, ops).0.nodes && n in Do(Run(records, ops).0, op).nodes
    ensures var (s, last) := Run(records, ops);
            Do(s, op).nodes[n].available ==
              if op.Event? && op.ev.NodeState? && op.ev.node == n && op.ev.state.Connected? then true
              else if op.Commission? && op.node == n then false
              else if op.Expiry? && op.node == n && LastWas(last, n, true) then false
              else s.nodes[n].available
  {
    hide Run, Overwrite, AttributeUpdates;
    AvailabilityInvariant(records, ops);
  }

  predicate TellsAvailability(w: Wire, n: NodeId, available: bool) {
    w.NodeUpdated? && w.node == n && w.entry.available == available
  }

  /** An event or an expiry that changes a node's availability sends exactly one
      `node_updated`, with the new value; one about a connection that changes nothing sends
      nothing at all. */
  lemma {:induction false} OneUpdateForEachChange(s: Consumer, op: Op, n: NodeId)
    requires op.Event? || op.Expiry?
    requires n in s.nodes
    ensures var after := Do(s, op);
            && n in after.nodes
            && (after.nodes[n].available != s.nodes[n].available ==>
                  |after.sent| == |s.sent| + 1 && after.sent[..|s.sent|] == s.sent
                  && TellsAvailability(after.sent[|s.sent|], n, after.nodes[n].available))
            && (op.Expiry? || op.ev.NodeState? ==>
                  (if op.Expiry? then op.node else op.ev.node) == n &&
                  after.nodes[n].available == s.nodes[n].available ==>
                    after.sent == s.sent)
  {
    hide Overwrite, AttributeUpdates;
  }

  // ----------------------------------------------------------------- the history

  function EventsSentOf(sent: seq<Wire>): seq<(NodeId, nat)> {
    if sent == [] then []
    else
      var front, w := EventsSentOf(sent[..|sent| - 1]), sent[|sent| - 1];
      if w.NodeEventSent? then front + [(w.node, w.number)] else front
  }

  function Newest(n: nat, events: seq<(NodeId, nat)>): seq<(NodeId, nat)> {
    if |events| <= n then events else events[|events| - n..]
  }

  lemma {:induction false} UpdatesAreNoEvents(sent: seq<Wire>, n: NodeId, changes: seq<Reports.Pair>)
    ensures EventsSentOf(sent + AttributeUpdates(n, changes)) == EventsSentOf(sent)
  {
    if changes == [] {
      assert sent + [] == sent;
    } else {
      var all := sent + AttributeUpdates(n, changes);
      UpdatesAreNoEvents(sent, n, changes[..|changes| - 1]);
      assert all[..|all| - 1] == sent + AttributeUpdates(n, changes[..|changes| - 1]);
    }
  }

  lemma {:induction false} OneMoreSent(sent: seq<Wire>, w: Wire)
    ensures EventsSentOf(sent + [w]) == EventsSentOf(sent) + if w.NodeEventSent? then [(w.node, w.number)] else []
  {
    assert (sent + [w])[..|sent|] == sent;
  }

  /** Everything but changes of attributes sends at most one message, and only an event's
      enters the history. */
  lemma {:induction false} AtMostOneSent(s: Consumer, op: Op)
    requires op.Event? && op.ev.AttributesChanged? ==> op.ev.node !in s.nodes
    ensures var after := Do(s, op);
            || (after.sent == s.sent && after.history == s.history)
            || (exists w :: after.sent == s.sent + [w] &&
                  after.history == if w.NodeEventSent? then Remembered(s.history, (w.node, w.number)) else s.history)
  {
    hide WithAttributes, WithAvailable, Remembered;
    var after := Do(s, op);
    if after.sent != s.sent {
      assert |after.sent| == |s.sent| + 1;
      assert after.sent == s.sent + [after.sent[|s.sent|]];
    }
  }

  lemma {:induction false} OneRemembered(history: seq<(NodeId, nat)>, sent: seq<Wire>, w: Wire)
    requires history == Newest(25, EventsSentOf(sent))
    ensures (if w.NodeEventSent? then Remembered(history, (w.node, w.number)) else history) ==
            Newest(25, EventsSentOf(sent + [w]))
  {
    hide EventsSentOf;
    OneMoreSent(sent, w);
  }

  lemma {:induction false} HistoryKept(s: Consumer, op: Op)
    requires s.history == Newest(25, EventsSentOf(s.sent))
    ensures var after := Do(s, op); after.history == Newest(25, EventsSentOf(after.sent))
  {
    hide Overwrite, AttributeUpdates, EventsSentOf, WithAttributes, WithAvailable;
    var after := Do(s, op);
    if op.Event? && op.ev.AttributesChanged? && op.ev.node in s.nodes {
      UpdatesAreNoEvents(s.sent, op.ev.node, op.ev.changes);
    } else {
      hide Do, Newest, Remembered;
      AtMostOneSent(s, op);
      if after.sent != s.sent {
        var w :| after.sent == s.sent + [w] &&
          after.history == if w.NodeEventSent? then Remembered(s.history, (w.node, w.number)) else s.history;
        OneRemembered(s.history, s.sent, w);
      }
    }
  }

  /** The history is the newest 25 of all node events broadcast. */
  lemma {:induction false} HistoryIsTheNewest(records: map<NodeId, Attributes>, ops: seq<Op>)
    ensures Run(records, ops).0.history == Newest(25, EventsSentOf(Run(records, ops).0.sent))
  {
    hide Do, LastHandled;
    if ops != [] {
      HistoryIsTheNewest(records, ops[..|ops| - 1]);
      HistoryKept(Run(records, ops[..|ops| - 1]).0, ops[|ops| - 1]);
    }
  }
}
