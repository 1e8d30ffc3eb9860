/** The consumer of stack events: availability with its reconnect grace, the attribute
    cache and what is broadcast to clients. */
module NodeManagement {
  import opened Wrappers
  import opened Json
  import Reports
  import opened Reassembly
  import opened StackContext
  import opened NodeRegistry

  const EVENT_HISTORY_SIZE: nat := 25

  /** What clients are sent. */
  datatype Wire =
    | NodeAdded(node: NodeId, entry: Entry)
    | NodeUpdated(node: NodeId, entry: Entry)
    | NodeRemoved(node: NodeId)
    | AttributeUpdated(node: NodeId, path: string, value: Value)
    | NodeEventSent(node: NodeId, number: nat)

  datatype Consumer = Consumer(
    nodes: map<NodeId, Entry>,
    timers: set<NodeId>,
    history: seq<(NodeId, nat)>,
    sent: seq<Wire>)

  // ------------------------------------------------------------ what a step does

  function Updated(s: Consumer, n: NodeId): Consumer {
    if n in s.nodes then s.(sent := s.sent + [NodeUpdated(n, s.nodes[n])]) else s
  }

  function Overwrite(attributes: Attributes, changes: seq<Reports.Pair>): Attributes {
    if changes == [] then attributes
    else
      var (path, value) := changes[|changes| - 1];
      Overwrite(attributes, changes[..|changes| - 1])[path := value]
  }

  function AttributeUpdates(n: NodeId, changes: seq<Reports.Pair>): seq<Wire> {
    if changes == [] then []
    else
      var (path, value) := changes[|changes| - 1];
      AttributeUpdates(n, changes[..|changes| - 1]) + [AttributeUpdated(n, path, value)]
  }

  /** The newest `EVENT_HISTORY_SIZE` events, oldest first. */
  function Remembered(history: seq<(NodeId, nat)>, event: (NodeId, nat)): seq<(NodeId, nat)> {
    (if |history| >= EVENT_HISTORY_SIZE then history[1..] else history) + [event]
  }

  /** `handle_event` */
  function Handled(s: Consumer, ev: StackEvent): Consumer {
    var n := ev.node;
    if n !in s.nodes then s
    else match ev
      case NodeState(_, Connected(_)) =>
        var awake := s.(nodes := WithAvailable(s.nodes, n, true), timers := s.timers - {n});
        if s.nodes[n].available then awake else Updated(awake, n)
      case NodeState(_, Reconnecting) =>
        if s.nodes[n].available then s.(timers := s.timers + {n}) else s
      case PrimingSnapshot(_, attributes) => Updated(s.(nodes := WithAttributes(s.nodes, n, attributes)), n)
      case AttributesChanged(_, changes) =>
        s.(nodes := WithAttributes(s.nodes, n, Overwrite(s.nodes[n].attributes, changes)),
           sent := s.sent + AttributeUpdates(n, changes))
      case NodeEvent(_, number) =>
        s.(history := Remembered(s.history, (n, number)), sent := s.sent + [NodeEventSent(n, number)])
  }

  /** `handle_grace_expiry`, for any signal, stale or not: only the timer entry is asked. */
  function GraceExpired(s: Consumer, n: NodeId): Consumer {
    if n !in s.timers then s
    else
      var asleep := s.(nodes := WithAvailable(s.nodes, n, false), timers := s.timers - {n});
      if n in s.nodes && s.nodes[n].available then Updated(asleep, n) else asleep
  }

  // -------------------------------------------------------------------- the class

  class NodeManager {
    const registry: Registry
    var timers: set<NodeId>
    var history: seq<(NodeId, nat)>
    var sent: seq<Wire>

    constructor (registry: Registry)
      ensures this.registry == registry && Contents() == Consumer(registry.nodes, {}, [], [])
    {
      this.registry := registry;
      timers, history, sent := {}, [], [];
    }

    ghost function Contents(): Consumer
      reads this, registry
    {
      Consumer(registry.nodes, timers, history, sent)
    }

    method EmitNodeUpdated(n: NodeId)
      modifies this`sent
      ensures Contents() == Updated(old(Contents()), n)
    {
      var data := registry.NodeData(n);
      if data.Some? {
        sent := sent + [NodeUpdated(n, data.value)];
      }
    }

    method HandleEvent(ev: StackEvent)
      modifies this, registry
      ensures Contents() == Handled(old(Contents()), ev)
    {
      var n := ev.node;
      if !registry.Contains(n) {
        return;
      }
      match ev {
        case NodeState(_, Connected(_)) =>
          timers := timers - {n};
          var changed := registry.SetAvailable(n, true);
          if changed == Some(true) {
            EmitNodeUpdated(n);
          }
        case NodeState(_, Reconnecting) =>
          var data := registry.NodeData(n);
          if data.Some? && data.value.available && n !in timers {
            timers := timers + {n};
          }
        case PrimingSnapshot(_, attributes) =>
          registry.SetAttributes(n, attributes);
          EmitNodeUpdated(n);
        case AttributesChanged(_, changes) =>
          ChangeAttributes(n, changes);
        case NodeEvent(_, number) =>
          if |history| >= EVENT_HISTORY_SIZE {
            history := history[1..];
          }
          history := history + [(n, number)];
          sent := sent + [NodeEventSent(n, number)];
      }
    }

    method ChangeAttributes(n: NodeId, changes: seq<Reports.Pair>)
      requires registry.Contains(n)
      modifies this`sent, registry
      ensures Contents() == Handled(old(Contents()), AttributesChanged(n, changes))
    {
      ghost var nodes := registry.nodes;
      for i := 0 to |changes|
        invariant registry.nodes == WithAttributes(nodes, n, Overwrite(nodes[n].attributes, changes[..i]))
        invariant sent == old(sent) + AttributeUpdates(n, changes[..i])
      {
        assert changes[..i + 1][..i] == changes[..i];
        var (path, value) := changes[i];
        registry.SetAttribute(n, path, value);
        sent := sent + [AttributeUpdated(n, path, value)];
      }
      assert changes[..|changes|] == changes;
    }

    method HandleGraceExpiry(n: NodeId)
      modifies this, registry
      ensures Contents() == GraceExpired(old(Contents()), n)
    {
      if n !in timers {
        return;
      }
      timers := timers - {n};
      var changed := registry.SetAvailable(n, false);
      if changed == Some(true) {
        EmitNodeUpdated(n);
      }
    }
  }
}
