/** Broadcasts of actors nobody interrupts, and two runs in which clients are left behind. */
module BroadcastRuns {
  import opened Wrappers
  import opened Json
  import Reports
  import opened StackContext
  import opened NodeRegistry
  import opened NodeManagement
  import opened Availability
  import opened Broadcasts

  // ------------------------------------------------------------- uninterrupted actors

  function Cost(ms: seq<Micro>): nat {
    if ms == [] then 0 else (if ms[0].ReadEntry? then 2 else 1) + Cost(ms[1..])
  }

  lemma {:induction false} LeftCostsLess(nodes: map<NodeId, Entry>, ms: seq<Micro>)
    requires ms != []
    ensures Cost(Left(nodes, ms)) < Cost(ms)
  {
    if ms[0].ReadEntry? && ms[0].node in nodes {
      assert Left(nodes, ms)[1..] == ms[1..];
    }
  }

  /** The state once the actor has done all it took up, if nobody else takes a step. */
  function Finish(s: State, a: Actor): State
    decreases Cost(WorkOf(s, a))
  {
    if WorkOf(s, a) == [] then s
    else
      LeftCostsLess(s.nodes, WorkOf(s, a));
      Finish(Next(s, Run(a)), a)
  }

  predicate Leads(s: State, nodes: map<NodeId, Entry>, sent: seq<Wire>, a: Actor) {
    Finish(s, a).nodes == nodes && Finish(s, a).sent == sent
  }

  lemma {:induction false} OverwriteFirst(attributes: Attributes, change: Reports.Pair, changes: seq<Reports.Pair>)
    ensures Overwrite(attributes, [change] + changes) == Overwrite(attributes[change.0 := change.1], changes)
  {
    if changes == [] {
      assert [change] + changes == [change] && [change][..0] == [];
      assert Overwrite(attributes, []) == attributes;
    } else {
      OverwriteFirst(attributes, change, changes[..|changes| - 1]);
      assert ([change] + changes)[..|changes|] == [change] + changes[..|changes| - 1];
    }
  }

  lemma {:induction false} UpdatesFirst(n: NodeId, change: Reports.Pair, changes: seq<Reports.Pair>)
    ensures AttributeUpdates(n, [change] + changes) ==
            [AttributeUpdated(n, change.0, change.1)] + AttributeUpdates(n, changes)
  {
    if changes == [] {
      assert [change] + changes == [change] && [change][..0] == [];
      assert AttributeUpdates(n, []) == [];
    } else {
      UpdatesFirst(n, change, changes[..|changes| - 1]);
      assert ([change] + changes)[..|changes|] == [change] + changes[..|changes| - 1];
    }
  }

  lemma {:induction false} ChangesUninterrupted(s: State, a: Actor, n: NodeId, changes: seq<Reports.Pair>)
    requires WorkOf(s, a) == ChangeOps(n, changes) && n in s.nodes
    ensures Leads(s, WithAttributes(s.nodes, n, Overwrite(s.nodes[n].attributes, changes)),
                  s.sent + AttributeUpdates(n, changes), a)
    decreases |changes|
  {
    hide Overwrite, AttributeUpdates, Next, ChangeOps;
    if changes == [] {
      assert ChangeOps(n, []) == [] by { NoOperations(n); }
      assert Overwrite(s.nodes[n].attributes, []) == s.nodes[n].attributes && AttributeUpdates(n, []) == [] by {
        NoChanges(s.nodes[n].attributes, n);
      }
      assert s.sent + [] == s.sent;
    } else {
      var first, rest := changes[0], changes[1..];
      assert changes == [first] + rest;
      OneChangeTold(s, a, n, changes);
      var told := Next(Next(s, Run(a)), Run(a));
      ChangesUninterrupted(told, a, n, rest);
      OverwriteFirst(s.nodes[n].attributes, first, rest);
      UpdatesFirst(n, first, rest);
      assert s.sent + ([AttributeUpdated(n, first.0, first.1)] + AttributeUpdates(n, rest)) ==
             (s.sent + [AttributeUpdated(n, first.0, first.1)]) + AttributeUpdates(n, rest);
    }
  }

  lemma NoOperations(n: NodeId)
    ensures ChangeOps(n, []) == []
  {
  }

  /** The first of some changes, made and told. */
  lemma {:induction false} OneChangeTold(s: State, a: Actor, n: NodeId, changes: seq<Reports.Pair>)
    requires WorkOf(s, a) == ChangeOps(n, changes) && n in s.nodes && changes != []
    ensures var (path, value) := changes[0];
            && WorkOf(s, a) != [] && WorkOf(Next(s, Run(a)), a) != []
            && var told := Next(Next(s, Run(a)), Run(a));
               && WorkOf(told, a) == ChangeOps(n, changes[1..])
               && told.nodes == WithAttributes(s.nodes, n, s.nodes[n].attributes[path := value])
               && told.sent == s.sent + [AttributeUpdated(n, path, value)]
               && Finish(s, a) == Finish(told, a)
  {
    var (path, value) := changes[0];
    var wrote := Next(s, Run(a));
    assert WorkOf(wrote, a) == [Send(AttributeUpdated(n, path, value))] + ChangeOps(n, changes[1..]);
    assert WorkOf(Next(wrote, Run(a)), a) == ChangeOps(n, changes[1..]);
  }

  lemma NoChanges(attributes: Attributes, n: NodeId)
    ensures Overwrite(attributes, []) == attributes && AttributeUpdates(n, []) == []
  {
  }

  lemma {:induction false} OneOperation(s: State, a: Actor)
    ensures WorkOf(s, a) == [] ==> Finish(s, a) == s
    ensures WorkOf(s, a) != [] ==> Finish(s, a) == Finish(Next(s, Run(a)), a)
  {
  }

  /** What an operation that nobody interrupts comes to. */
  predicate Atomic(s: State, a: Actor, op: Op, c: Consumer)
    requires Enabled(s, Spawn(a, op))
  {
    Leads(Next(s, Spawn(a, op)), Do(c, op).nodes, Do(c, op).sent, a)
  }

  lemma {:induction false} StateAtomic(s: State, a: Actor, n: NodeId, state: ConnState, c: Consumer)
    requires Enabled(s, Spawn(a, Event(NodeState(n, state)))) && c.nodes == s.nodes && c.sent == s.sent
    ensures Atomic(s, a, Event(NodeState(n, state)), c)
  {
    hide Finish;
    var s0 := Next(s, Spawn(a, Event(NodeState(n, state))));
    var s1 := Next(s0, Run(a));
    OneOperation(s0, a);
    OneOperation(s1, a);
    if state.Connected? && n in s.nodes {
      var s2 := Next(s1, Run(a));
      OneOperation(s2, a);
      if !s.nodes[n].available {
        var s3 := Next(s2, Run(a));
        OneOperation(s3, a);
        OneOperation(Next(s3, Run(a)), a);
      }
    }
  }

  lemma {:induction false} PrimingAtomic(s: State, a: Actor, n: NodeId, attributes: Attributes, c: Consumer)
    requires Enabled(s, Spawn(a, Event(PrimingSnapshot(n, attributes)))) && c.nodes == s.nodes && c.sent == s.sent
    ensures Atomic(s, a, Event(PrimingSnapshot(n, attributes)), c)
  {
    hide Finish;
    var s0 := Next(s, Spawn(a, Event(PrimingSnapshot(n, attributes))));
    var s1 := Next(s0, Run(a));
    OneOperation(s0, a);
    OneOperation(s1, a);
    if n in s.nodes {
      var s2 := Next(s1, Run(a));
      OneOperation(s2, a);
      var s3 := Next(s2, Run(a));
      OneOperation(s3, a);
      OneOperation(Next(s3, Run(a)), a);
    }
  }

  lemma {:induction false} EventAtomic(s: State, a: Actor, n: NodeId, number: nat, c: Consumer)
    requires Enabled(s, Spawn(a, Event(NodeEvent(n, number)))) && c.nodes == s.nodes && c.sent == s.sent
    ensures Atomic(s, a, Event(NodeEvent(n, number)), c)
  {
    hide Finish;
    var s0 := Next(s, Spawn(a, Event(NodeEvent(n, number))));
    var s1 := Next(s0, Run(a));
    OneOperation(s0, a);
    OneOperation(s1, a);
    if n in s.nodes {
      OneOperation(Next(s1, Run(a)), a);
    }
  }

  lemma {:induction false} ExpiryAtomic(s: State, a: Actor, n: NodeId, c: Consumer)
    requires Enabled(s, Spawn(a, Expiry(n))) && c.nodes == s.nodes && c.sent == s.sent && n in c.timers
    ensures Atomic(s, a, Expiry(n), c)
  {
    hide Finish;
    var s0 := Next(s, Spawn(a, Expiry(n)));
    var s1 := Next(s0, Run(a));
    OneOperation(s0, a);
    OneOperation(s1, a);
    if n in s.nodes && s.nodes[n].available {
      var s2 := Next(s1, Run(a));
      OneOperation(s2, a);
      OneOperation(Next(s2, Run(a)), a);
    }
  }

  lemma {:induction false} CommandAtomic(s: State, a: Actor, op: Op, c: Consumer)
    requires !op.Event? && !op.Expiry? && Enabled(s, Spawn(a, op)) && c.nodes == s.nodes && c.sent == s.sent
    ensures Atomic(s, a, op, c)
  {
    hide Finish;
    var s0 := Next(s, Spawn(a, op));
    var s1 := Next(s0, Run(a));
    var s2 := Next(s1, Run(a));
    OneOperation(s0, a);
    OneOperation(s1, a);
    OneOperation(s2, a);
    if WorkOf(s2, a) != [] {
      OneOperation(Next(s2, Run(a)), a);
    }
  }

  /** An operation nobody interrupts does to the registry and the broadcasts what the
      handlers are proved to do. */
  lemma {:induction false} UninterruptedIsAtomic(s: State, a: Actor, op: Op, c: Consumer)
    requires Enabled(s, Spawn(a, op)) && c.nodes == s.nodes && c.sent == s.sent
    requires op.Expiry? ==> op.node in c.timers
    ensures Atomic(s, a, op, c)
  {
    hide Finish, Overwrite, AttributeUpdates, ChangeOps, Atomic;
    match op {
      case Event(NodeState(n, state)) => StateAtomic(s, a, n, state, c);
      case Event(PrimingSnapshot(n, attributes)) => PrimingAtomic(s, a, n, attributes, c);
      case Event(NodeEvent(n, number)) => EventAtomic(s, a, n, number, c);
      case Event(AttributesChanged(n, changes)) => AllChangesAtomic(s, a, n, changes, c);
      case Expiry(n) => ExpiryAtomic(s, a, n, c);
      case _ => CommandAtomic(s, a, op, c);
    }
  }

  lemma {:induction false} AllChangesAtomic(s: State, a: Actor, n: NodeId, changes: seq<Reports.Pair>, c: Consumer)
    requires Enabled(s, Spawn(a, Event(AttributesChanged(n, changes)))) && c.nodes == s.nodes && c.sent == s.sent
    ensures Atomic(s, a, Event(AttributesChanged(n, changes)), c)
  {
    hide Finish, Overwrite, AttributeUpdates, ChangeOps;
    var s0 := Next(s, Spawn(a, Event(AttributesChanged(n, changes))));
    var s1 := Next(s0, Run(a));
    OneOperation(s0, a);
    OneOperation(s1, a);
    ChangesAtomic(s0, s1, a, n, changes);
  }

  lemma {:induction false} ChangesAtomic(s0: State, s1: State, a: Actor, n: NodeId, changes: seq<Reports.Pair>)
    requires WorkOf(s0, a) == [Check(n)] + ChangeOps(n, changes) && s1 == Next(s0, Run(a))
    ensures n in s0.nodes ==>
              Leads(s1, WithAttributes(s0.nodes, n, Overwrite(s0.nodes[n].attributes, changes)),
                    s0.sent + AttributeUpdates(n, changes), a)
    ensures n !in s0.nodes ==> WorkOf(s1, a) == [] && s1.nodes == s0.nodes && s1.sent == s0.sent
  {
    hide Overwrite, AttributeUpdates, ChangeOps, Leads;
    assert ([Check(n)] + ChangeOps(n, changes))[1..] == ChangeOps(n, changes);
    if n in s0.nodes {
      ChangesUninterrupted(s1, a, n, changes);
    }
  }

  // ------------------------------------------------------------------- diverging runs

  /** A run of the consumer and one other actor has come to these values. */
  ghost predicate At(records: map<NodeId, Attributes>, steps: seq<Step>, nodes: map<NodeId, Entry>, sent: seq<Wire>,
                     consumer: seq<Micro>, other: seq<Micro>) {
    After(records, steps).Some? &&
    var s := After(records, steps).value;
    && s.nodes == nodes && s.sent == sent && WorkOf(s, 0) == consumer && WorkOf(s, 1) == other
    && forall a :: a > 1 ==> WorkOf(s, a) == []
  }

  lemma {:induction false} TookUp(records: map<NodeId, Attributes>, steps: seq<Step>, nodes: map<NodeId, Entry>,
                                  sent: seq<Wire>, consumer: seq<Micro>, other: seq<Micro>, a: Actor, op: Op)
    requires At(records, steps, nodes, sent, consumer, other)
    requires a <= 1 && (if a == 0 then consumer else other) == [] && (a == CONSUMER <==> op.Event? || op.Expiry?)
    ensures At(records, steps + [Spawn(a, op)], nodes, sent, if a == 0 then Program(op) else consumer,
               if a == 1 then Program(op) else other)
  {
    hide Program;
    var s := After(records, steps).value;
    assert (steps + [Spawn(a, op)])[..|steps|] == steps;
    var after := Next(s, Spawn(a, op));
    assert After(records, steps + [Spawn(a, op)]) == Some(after);
    assert WorkOf(after, a) == Program(op);
    assert forall b :: b != a ==> WorkOf(after, b) == WorkOf(s, b);
  }

  lemma {:induction false} Did(records: map<NodeId, Attributes>, steps: seq<Step>, nodes: map<NodeId, Entry>,
                               sent: seq<Wire>, consumer: seq<Micro>, other: seq<Micro>, a: Actor)
    requires At(records, steps, nodes, sent, consumer, other)
    requires a <= 1 && (if a == 0 then consumer else other) != []
    ensures var ms := if a == 0 then consumer else other;
            At(records, steps + [Run(a)], Wrote(nodes, ms[0]), if ms[0].Send? then sent + [ms[0].w] else sent,
               if a == 0 then Left(nodes, ms) else consumer, if a == 1 then Left(nodes, ms) else other)
  {
    hide Wrote, Left;
    var s := After(records, steps).value;
    assert (steps + [Run(a)])[..|steps|] == steps;
    var after := Next(s, Run(a));
    assert After(records, steps + [Run(a)]) == Some(after);
    assert WorkOf(after, a) == Left(nodes, WorkOf(s, a));
    assert forall b :: b != a ==> WorkOf(after, b) == WorkOf(s, b);
  }

  const BEFORE: Attributes := map["1/6/0" := Value.Bool(false)]
  const TURNED_ON: Op := Event(AttributesChanged(1, [("1/6/0", Value.Bool(true))]))

  const KNOWN: Entry := Entry(false, BEFORE)

  lemma NothingDone()
    ensures At(map[1 := BEFORE], [], map[1 := KNOWN], [], [], [])
  {
  }

  lemma OneChange()
    ensures ChangeOps(1, [("1/6/0", Value.Bool(true))]) ==
            [SetOne(1, "1/6/0", Value.Bool(true)), Send(AttributeUpdated(1, "1/6/0", Value.Bool(true)))]
  {
  }

  lemma {:induction false} AllDone(records: map<NodeId, Attributes>, steps: seq<Step>, nodes: map<NodeId, Entry>,
                                   sent: seq<Wire>, n: NodeId)
    requires At(records, steps, nodes, sent, [], [])
    ensures Settled(After(records, steps).value, n)
  {
    forall a ensures WorkOf(After(records, steps).value, a) == [] {
      assert a == 0 || a == 1 || a > 1;
    }
  }

  /** An interview has read the node when an attribute of it changes; the change is told
      first, and the interview's older picture of the node last. */
  lemma {:induction false} InterviewTellsThePast() returns (steps: seq<Step>)
    ensures var records := map[1 := BEFORE];
            && After(records, steps).Some?
            && var s := After(records, steps).value;
               Settled(s, 1) && !InStep(s.nodes, Mirror(records, s.sent), 1)
  {
    hide At, Mirror, Settled, ChangeOps, After;
    var records, nodes := map[1 := BEFORE], map[1 := KNOWN];
    var setAll, read := SetAll(1, BEFORE), ReadEntry(1, false);
    var older := NodeUpdated(1, KNOWN);
    NothingDone();
    TookUp(records, [], nodes, [], [], [], 1, Interview(1, BEFORE));
    var s1 := [] + [Spawn(1, Interview(1, BEFORE))];
    Did(records, s1, nodes, [], [], [setAll, read], 1);
    assert Wrote(nodes, setAll) == nodes && [setAll, read][1..] == [read];
    Did(records, s1 + [Run(1)], nodes, [], [], [read], 1);
    assert Left(nodes, [read]) == [Send(older)];
    var s3 := s1 + [Run(1)] + [Run(1)];
    ConsumerTurnsOn(records, s3, older);
    var s7 := s3 + [Spawn(0, TURNED_ON)] + [Run(0)] + [Run(0)] + [Run(0)];
    var sent := [] + [AttributeUpdated(1, "1/6/0", Value.Bool(true))];
    Did(records, s7, map[1 := TURNED], sent, [], [Send(older)], 1);
    steps := s7 + [Run(1)];
    assert [Send(older)][1..] == [];
    AllDone(records, steps, map[1 := TURNED], sent + [older], 1);
    EndsWithout(records, steps, map[1 := TURNED], sent + [older]);
    assert TURNED.attributes["1/6/0"] != KNOWN.attributes["1/6/0"];
    EndsWithOlder(records, steps, map[1 := TURNED], sent, older);
  }

  const TURNED: Entry := Entry(false, BEFORE["1/6/0" := Value.Bool(true)])

  lemma {:induction false} ConsumerTurnsOn(records: map<NodeId, Attributes>, steps: seq<Step>, older: Wire)
    requires At(records, steps, map[1 := KNOWN], [], [], [Send(older)])
    ensures At(records, steps + [Spawn(0, TURNED_ON)] + [Run(0)] + [Run(0)] + [Run(0)], map[1 := TURNED],
               [] + [AttributeUpdated(1, "1/6/0", Value.Bool(true))], [], [Send(older)])
  {
    hide At, ChangeOps;
    var nodes, other := map[1 := KNOWN], [Send(older)];
    var change, tell := SetOne(1, "1/6/0", Value.Bool(true)), Send(AttributeUpdated(1, "1/6/0", Value.Bool(true)));
    OneChange();
    TookUp(records, steps, nodes, [], [], other, 0, TURNED_ON);
    assert Program(TURNED_ON) == [Check(1), change, tell];
    var s1 := steps + [Spawn(0, TURNED_ON)];
    Did(records, s1, nodes, [], [Check(1), change, tell], other, 0);
    assert [Check(1), change, tell][1..] == [change, tell];
    Did(records, s1 + [Run(0)], nodes, [], [change, tell], other, 0);
    assert Wrote(nodes, change) == map[1 := TURNED] && [change, tell][1..] == [tell];
    Did(records, s1 + [Run(0)] + [Run(0)], map[1 := TURNED], [], [tell], other, 0);
    assert [tell][1..] == [];
  }

  lemma {:induction false} EndsWithOlder(records: map<NodeId, Attributes>, steps: seq<Step>, nodes: map<NodeId, Entry>,
                                         sent: seq<Wire>, older: Wire)
    requires At(records, steps, nodes, sent + [older], [], []) && older.NodeUpdated? && older.node == 1
    requires 1 in nodes ==> nodes[1] != older.entry
    ensures !InStep(After(records, steps).value.nodes, Mirror(records, After(records, steps).value.sent), 1)
    ensures 1 in Mirror(records, After(records, steps).value.sent)
  {
    hide Mirror, After;
    MirrorSnoc(records, sent, older);
  }

  /** A node is removed between the consumer's read and its send: clients get it back. */
  lemma {:induction false} RemovedNodeComesBack() returns (steps: seq<Step>)
    ensures var records := map[1 := BEFORE];
            && After(records, steps).Some?
            && var s := After(records, steps).value;
               Settled(s, 1) && 1 !in s.nodes && 1 in Mirror(records, s.sent)
  {
    hide At, Mirror, Settled, After;
    var records, nodes, up := map[1 := BEFORE], map[1 := KNOWN], map[1 := Entry(true, BEFORE)];
    var connected := Event(NodeState(1, Connected(60)));
    var check, wake, read := Check(1), SetAvailable(1, true), ReadEntry(1, false);
    var older := NodeUpdated(1, Entry(true, BEFORE));
    NothingDone();
    TookUp(records, [], nodes, [], [], [], 0, connected);
    var s1 := [] + [Spawn(0, connected)];
    Did(records, s1, nodes, [], [check, wake, read], [], 0);
    assert [check, wake, read][1..] == [wake, read];
    Did(records, s1 + [Run(0)], nodes, [], [wake, read], [], 0);
    assert Wrote(nodes, wake) == up && [wake, read][1..] == [read];
    Did(records, s1 + [Run(0)] + [Run(0)], up, [], [read], [], 0);
    assert Left(up, [read]) == [Send(older)];
    var s4 := s1 + [Run(0)] + [Run(0)] + [Run(0)];
    TookUp(records, s4, up, [], [Send(older)], [], 1, Decommission(1));
    var s5 := s4 + [Spawn(1, Decommission(1))];
    var remove, tell := Remove(1), Send(NodeRemoved(1));
    Did(records, s5, up, [], [Send(older)], [remove, tell], 1);
    assert Wrote(up, remove) == map[] && [remove, tell][1..] == [tell];
    Did(records, s5 + [Run(1)], map[], [], [Send(older)], [tell], 1);
    assert [tell][1..] == [];
    var s7, sent := s5 + [Run(1)] + [Run(1)], [] + [NodeRemoved(1)];
    Did(records, s7, map[], sent, [Send(older)], [], 0);
    assert [Send(older)][1..] == [];
    steps := s7 + [Run(0)];
    AllDone(records, steps, map[], sent + [older], 1);
    EndsWithOlder(records, steps, map[], sent, older);
    EndsWithout(records, steps, map[], sent + [older]);
  }

  lemma EndsWithout(records: map<NodeId, Attributes>, steps: seq<Step>, nodes: map<NodeId, Entry>, sent: seq<Wire>)
    requires At(records, steps, nodes, sent, [], [])
    ensures After(records, steps).Some? && After(records, steps).value.nodes == nodes
  {
  }
}
