/** The state the tasks of the stack thread share (`StackCtx`), and what each piece of
    code between two awaits does to it. */
module StackContext {
  import opened Wrappers
  import opened Json
  import opened Reports
  import opened Reassembly

  type SubId = nat
  type Time = nat

  datatype ConnState = Connected(maxInterval: nat) | Reconnecting

  datatype StackEvent =
    | NodeState(node: NodeId, state: ConnState)
    | PrimingSnapshot(node: NodeId, attributes: map<string, Value>)
    | AttributesChanged(node: NodeId, changes: seq<Pair>)
    | NodeEvent(node: NodeId, number: nat)

  /** What a report says of itself: its subscription id, if any, and whether it came on
      our fabric; the node is the authenticated peer. */
  datatype Source = Source(node: NodeId, sub: Option<SubId>, ourFabric: bool)

  datatype Shared = Shared(
    subs: map<NodeId, SubId>,
    liveness: map<NodeId, Time>,
    lastEvent: map<NodeId, nat>,
    pending: map<NodeId, seq<Pair>>,
    events: seq<StackEvent>)

  // ----------------------------------------------------------- the pure pieces

  /** `note_event`: an event is new when nothing was noted, or only lower numbers. */
  predicate IsNew(last: map<NodeId, nat>, node: NodeId, number: nat) {
    node in last ==> last[node] < number
  }

  function Note(last: map<NodeId, nat>, node: NodeId, number: nat): map<NodeId, nat> {
    if IsNew(last, node, number) then last[node := number] else last
  }

  function NoteAll(last: map<NodeId, nat>, node: NodeId, numbers: seq<nat>): map<NodeId, nat> {
    if numbers == [] then last
    else Note(NoteAll(last, node, numbers[..|numbers| - 1]), node, numbers[|numbers| - 1])
  }

  /** The numbers of a report that are new when their turn comes. */
  function NewOnes(last: map<NodeId, nat>, node: NodeId, numbers: seq<nat>): seq<nat> {
    if numbers == [] then []
    else
      var front, n := numbers[..|numbers| - 1], numbers[|numbers| - 1];
      if IsNew(NoteAll(last, node, front), node, n) then NewOnes(last, node, front) + [n]
      else NewOnes(last, node, front)
  }

  function NodeEvents(node: NodeId, numbers: seq<nat>): (es: seq<StackEvent>)
    ensures |es| == |numbers| && forall i :: 0 <= i < |es| ==> es[i] == NodeEvent(node, numbers[i])
  {
    if numbers == [] then []
    else NodeEvents(node, numbers[..|numbers| - 1]) + [NodeEvent(node, numbers[|numbers| - 1])]
  }

  lemma WalkStarts(last: map<NodeId, nat>, node: NodeId)
    ensures NoteAll(last, node, []) == last && NodeEvents(node, NewOnes(last, node, [])) == []
  {
  }

  lemma {:induction false} WalkSnoc(last: map<NodeId, nat>, node: NodeId, numbers: seq<nat>, n: nat)
    ensures var before := NoteAll(last, node, numbers);
            && NoteAll(last, node, numbers + [n]) == Note(before, node, n)
            && NodeEvents(node, NewOnes(last, node, numbers + [n])) ==
               NodeEvents(node, NewOnes(last, node, numbers)) +
               if IsNew(before, node, n) then [NodeEvent(node, n)] else []
  {
    hide Note, IsNew;
    assert (numbers + [n])[..|numbers|] == numbers;
    var found := NewOnes(last, node, numbers);
    assert (found + [n])[..|found|] == found;
  }

  /** `disown`: compare, then remove. */
  function Disown(subs: map<NodeId, SubId>, node: NodeId, sub: SubId): map<NodeId, SubId> {
    if node in subs && subs[node] == sub then subs - {node} else subs
  }

  /** The report handler accepts what it can match to the subscription we track. */
  predicate Accepts(sh: Shared, from: Source) {
    from.sub.Some? && from.ourFabric && from.node in sh.subs && sh.subs[from.node] == from.sub.value
  }

  /** `handle_report`; a report that is not accepted is answered `InvalidSubscription`
      and changes nothing. */
  function Handle(types: AttrTypes, sh: Shared, from: Source, report: Report, now: Time): Shared {
    if !Accepts(sh, from) then sh
    else
      var n := from.node;
      var (pending, released) := Absorbing(types, sh.pending, n, report);
      var changed := if released.Some? && released.value != [] then [AttributesChanged(n, released.value)] else [];
      sh.(liveness := sh.liveness[n := now],
          pending := pending,
          lastEvent := NoteAll(sh.lastEvent, n, report.events),
          events := sh.events + changed + NodeEvents(n, NewOnes(sh.lastEvent, n, report.events)))
  }

  /** The head of `establish`, and all of `forget_node` that this model keeps. */
  function Clear(sh: Shared, node: NodeId): Shared {
    sh.(lastEvent := sh.lastEvent - {node}, pending := sh.pending - {node})
  }

  /** The events of a priming chunk seed the mark. */
  function Seeded(sh: Shared, node: NodeId, numbers: seq<nat>): Shared {
    sh.(lastEvent := NoteAll(sh.lastEvent, node, numbers))
  }

  /** The tail of `establish`: own the subscription, announce the node, then its state. */
  function Own(sh: Shared, node: NodeId, sub: SubId, maxInterval: nat, attributes: map<string, Value>,
      now: Time): Shared {
    sh.(subs := sh.subs[node := sub],
        liveness := sh.liveness[node := now],
        events := sh.events + [NodeState(node, Connected(maxInterval)), PrimingSnapshot(node, attributes)])
  }

  /** Dropping the guard of a subscription. */
  function Release(sh: Shared, node: NodeId, sub: SubId): Shared {
    sh.(subs := Disown(sh.subs, node, sub), liveness := sh.liveness - {node})
  }

  function Lose(sh: Shared, node: NodeId): Shared {
    sh.(events := sh.events + [NodeState(node, Reconnecting)])
  }

  // ----------------------------------------------------------------- the class

  class StackCtx {
    var subs: map<NodeId, SubId>
    var liveness: map<NodeId, Time>
    var lastEvent: map<NodeId, nat>
    var events: seq<StackEvent>
    const pending: PendingReports

    constructor (types: AttrTypes)
      ensures Valid() && fresh(pending) && pending.types == types
      ensures Contents() == Shared(map[], map[], map[], map[], [])
    {
      pending := new PendingReports(types);
      subs, liveness, lastEvent, events := map[], map[], map[], [];
    }

    ghost predicate Valid()
      reads this, pending, pending.accs.Values
    {
      pending.Valid()
    }

    ghost function Contents(): Shared
      reads this, pending, pending.accs.Values
    {
      Shared(subs, liveness, lastEvent, pending.Contents(), events)
    }

    method NoteEvent(node: NodeId, number: nat) returns (isNew: bool)
      modifies this`lastEvent
      ensures isNew == IsNew(old(lastEvent), node, number)
      ensures lastEvent == Note(old(lastEvent), node, number)
    {
      if node in lastEvent && number <= lastEvent[node] {
        return false;
      }
      lastEvent := lastEvent[node := number];
      return true;
    }

    /** `reset_event_high_water` and `forget`, as `establish` and `forget_node` call them. */
    method ClearNode(node: NodeId)
      requires Valid()
      modifies this`lastEvent, pending
      ensures Valid() && pending.accs.Values <= old(pending.accs.Values)
      ensures Contents() == Clear(old(Contents()), node)
    {
      lastEvent := lastEvent - {node};
      pending.Forget(node);
    }

    /** The guard's `Drop`. */
    method DropGuard(node: NodeId, sub: SubId)
      requires Valid()
      modifies this`subs, this`liveness
      ensures Valid() && Contents() == Release(old(Contents()), node, sub)
    {
      if node in subs && subs[node] == sub {
        subs := subs - {node};
      }
      liveness := liveness - {node};
    }

    method Established(node: NodeId, sub: SubId, maxInterval: nat, attributes: map<string, Value>, now: Time)
      requires Valid()
      modifies this`subs, this`liveness, this`events
      ensures Valid() && Contents() == Own(old(Contents()), node, sub, maxInterval, attributes, now)
    {
      hide PendingReports.Valid, PendingReports.Contents;
      subs := subs[node := sub];
      liveness := liveness[node := now];
      events := events + [NodeState(node, Connected(maxInterval))];
      events := events + [PrimingSnapshot(node, attributes)];
    }

    method Lost(node: NodeId)
      requires Valid()
      modifies this`events
      ensures Valid() && Contents() == Lose(old(Contents()), node)
    {
      events := events + [NodeState(node, Reconnecting)];
    }

    /** `handle_report` */
    method HandleReport(from: Source, report: Report, now: Time) returns (accepted: bool)
      requires Valid()
      modifies this, pending, pending.accs.Values
      ensures Valid() && fresh(pending.accs.Values - old(pending.accs.Values))
      ensures accepted <==>
              from.ourFabric && from.sub.Some? && from.node in old(subs) && old(subs)[from.node] == from.sub.value
      ensures Contents() == Handle(pending.types, old(Contents()), from, report, now)
    {
      hide Absorbing, NoteAll, NewOnes, NodeEvents, PendingReports.Valid, PendingReports.Contents;
      if from.sub.None? || !from.ourFabric {
        return false;
      }
      var n := from.node;
      if n !in subs || subs[n] != from.sub.value {
        return false;
      }
      liveness := liveness[n := now];
      var released := pending.AbsorbMessage(n, report);
      if released.Some? && released.value != [] {
        events := events + [AttributesChanged(n, released.value)];
      }
      ForwardEvents(n, report.events);
      return true;
    }

    /** The event walk of `handle_report`: note each number, forward the new ones. */
    method ForwardEvents(node: NodeId, numbers: seq<nat>)
      modifies this`lastEvent, this`events
      ensures lastEvent == NoteAll(old(lastEvent), node, numbers)
      ensures events == old(events) + NodeEvents(node, NewOnes(old(lastEvent), node, numbers))
    {
      hide *;
      ghost var last, sent := lastEvent, events;
      WalkStarts(last, node);
      for i := 0 to |numbers|
        invariant lastEvent == NoteAll(last, node, numbers[..i])
        invariant events == sent + NodeEvents(node, NewOnes(last, node, numbers[..i]))
      {
        WalkSnoc(last, node, numbers[..i], numbers[i]);
        assert numbers[..i] + [numbers[i]] == numbers[..i + 1];
        var isNew := NoteEvent(node, numbers[i]);
        if isNew {
          events := events + [NodeEvent(node, numbers[i])];
        }
      }
      assert numbers[..|numbers|] == numbers;
    }

    /** The event walk of priming: note each number, forward none. */
    method NotePriming(node: NodeId, numbers: seq<nat>)
      requires Valid()
      modifies this`lastEvent
      ensures Valid() && Contents() == Seeded(old(Contents()), node, numbers)
    {
      hide PendingReports.Valid, PendingReports.Contents;
      for i := 0 to |numbers|
        invariant lastEvent == NoteAll(old(lastEvent), node, numbers[..i])
      {
        assert numbers[..i + 1][..i] == numbers[..i];
        var _ := NoteEvent(node, numbers[i]);
      }
      assert numbers[..|numbers|] == numbers;
    }
  }
}
