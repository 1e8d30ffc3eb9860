/** What clients learn of the registry. The consumer of stack events and the command
    handlers run on different threads and take the registry's lock for one operation at a
    time, so every operation on the registry and every send is a step of its own. */
module Broadcasts {
  import opened Wrappers
  import opened Json
  import Reports
  import Reassembly
  import opened NodeRegistry
  import opened NodeManagement
  import opened Availability

  type NodeId = Reassembly.NodeId

  // --------------------------------------------------------------------- programs

  /** One operation of an actor. A check, a change of availability and a read can end the
      rest: the node is not there, or nothing changed. */
  datatype Micro =
    | Check(node: NodeId)
    | SetAvailable(node: NodeId, available: bool)
    | SetAll(node: NodeId, attributes: Attributes)
    | SetOne(node: NodeId, path: string, value: Value)
    | Insert(node: NodeId, attributes: Attributes)
    | Remove(node: NodeId)
    | ReadEntry(node: NodeId, added: bool)
    | Send(w: Wire)

  function ChangeOps(n: NodeId, changes: seq<Reports.Pair>): seq<Micro> {
    if changes == [] then []
    else
      var (path, value) := changes[0];
      [SetOne(n, path, value), Send(AttributeUpdated(n, path, value))] + ChangeOps(n, changes[1..])
  }

  /** What the consumer does on an event or an expired timer, and what a command does. */
  function Program(op: Op): seq<Micro> {
    match op
    case Event(NodeState(n, Connected(_))) => [Check(n), SetAvailable(n, true), ReadEntry(n, false)]
    case Event(NodeState(n, Reconnecting)) => [Check(n)]
    case Event(PrimingSnapshot(n, attributes)) => [Check(n), SetAll(n, attributes), ReadEntry(n, false)]
    case Event(AttributesChanged(n, changes)) => [Check(n)] + ChangeOps(n, changes)
    case Event(NodeEvent(n, number)) => [Check(n), Send(NodeEventSent(n, number))]
    case Expiry(n) => [SetAvailable(n, false), ReadEntry(n, false)]
    case Commission(n, attributes) => [Insert(n, attributes), ReadEntry(n, true)]
    case Interview(n, attributes) => [SetAll(n, attributes), ReadEntry(n, false)]
    case Decommission(n) => [Remove(n), Send(NodeRemoved(n))]
  }

  // --------------------------------------------------------------------- the machine

  type Actor = nat

  const CONSUMER: Actor := 0

  datatype State = State(nodes: map<NodeId, Entry>, sent: seq<Wire>, work: map<Actor, seq<Micro>>)

  /** An actor that has nothing to do takes an operation up, or one that has does its next
      piece. */
  datatype Step = Spawn(actor: Actor, op: Op) | Run(actor: Actor)

  function WorkOf(s: State, a: Actor): seq<Micro> {
    if a in s.work then s.work[a] else []
  }

  predicate Enabled(s: State, step: Step) {
    match step
    case Spawn(a, op) => WorkOf(s, a) == [] && (a == CONSUMER <==> op.Event? || op.Expiry?)
    case Run(a) => WorkOf(s, a) != []
  }

  function Wrote(nodes: map<NodeId, Entry>, m: Micro): map<NodeId, Entry> {
    match m
    case SetAvailable(n, available) => WithAvailable(nodes, n, available)
    case SetAll(n, attributes) => WithAttributes(nodes, n, attributes)
    case SetOne(n, path, value) =>
      if n in nodes then WithAttributes(nodes, n, nodes[n].attributes[path := value]) else nodes
    case Insert(n, attributes) => nodes[n := Entry(false, attributes)]
    case Remove(n) => nodes - {n}
    case _ => nodes
  }

  /** What is left to do after the first operation of `ms`. */
  function Left(nodes: map<NodeId, Entry>, ms: seq<Micro>): seq<Micro>
    requires ms != []
  {
    var rest := ms[1..];
    match ms[0]
    case Check(n) => if n in nodes then rest else []
    case SetAvailable(n, available) => if n in nodes && nodes[n].available != available then rest else []
    case ReadEntry(n, added) =>
      if n !in nodes then []
      else [Send(if added then NodeAdded(n, nodes[n]) else NodeUpdated(n, nodes[n]))] + rest
    case _ => rest
  }

  function Next(s: State, step: Step): State
    requires Enabled(s, step)
  {
    match step
    case Spawn(a, op) => s.(work := s.work[a := Program(op)])
    case Run(a) =>
      var ms := WorkOf(s, a);
      State(Wrote(s.nodes, ms[0]),
            if ms[0].Send? then s.sent + [ms[0].w] else s.sent,
            s.work[a := Left(s.nodes, ms)])
  }

  function After(records: map<NodeId, Attributes>, steps: seq<Step>): Option<State> {
    if steps == [] then Some(State(Started(records).nodes, [], map[]))
    else
      var s :- After(records, steps[..|steps| - 1]);
      if Enabled(s, steps[|steps| - 1]) then Some(Next(s, steps[|steps| - 1])) else None
  }

  // ------------------------------------------------------------- what clients hold

  /** What a client that applies the broadcasts makes of one. */
  function Noticed(known: map<NodeId, Entry>, w: Wire): map<NodeId, Entry> {
    match w
    case NodeAdded(n, entry) => known[n := entry]
    case NodeUpdated(n, entry) => known[n := entry]
    case NodeRemoved(n) => known - {n}
    case AttributeUpdated(n, path, value) =>
      if n in known then WithAttributes(known, n, known[n].attributes[path := value]) else known
    case NodeEventSent(_, _) => known
  }

  /** What it holds after all of them. */
  function Mirror(records: map<NodeId, Attributes>, sent: seq<Wire>): map<NodeId, Entry> {
    if sent == [] then Started(records).nodes
    else Noticed(Mirror(records, sent[..|sent| - 1]), sent[|sent| - 1])
  }

  lemma {:induction false} MirrorSnoc(records: map<NodeId, Attributes>, sent: seq<Wire>, w: Wire)
    ensures Mirror(records, sent + [w]) == Noticed(Mirror(records, sent), w)
  {
    assert (sent + [w])[..|sent|] == sent;
  }

  /** The availability of a node, or one of its attributes. */
  datatype Aspect = Flag | Path(path: string)

  datatype Seen = FlagIs(available: bool) | ValueIs(value: Option<Value>)

  function SeenIn(e: Entry, x: Aspect): Seen {
    match x
    case Flag => FlagIs(e.available)
    case Path(p) => ValueIs(if p in e.attributes then Some(e.attributes[p]) else None)
  }

  function View(nodes: map<NodeId, Entry>, n: NodeId, x: Aspect): Option<Seen> {
    if n in nodes then Some(SeenIn(nodes[n], x)) else None
  }

  /** The client learns of the aspect from the message. A change of an attribute of a node
      it does not know is passed over. */
  predicate Speaks(w: Wire, n: NodeId, x: Aspect, known: map<NodeId, Entry>) {
    w.node == n &&
    match w
    case NodeEventSent(_, _) => false
    case AttributeUpdated(_, path, _) => x == Path(path) && n in known
    case _ => true
  }

  function Said(w: Wire, x: Aspect): Option<Seen> {
    match w
    case NodeAdded(_, entry) => Some(SeenIn(entry, x))
    case NodeUpdated(_, entry) => Some(SeenIn(entry, x))
    case AttributeUpdated(_, _, value) => Some(ValueIs(Some(value)))
    case _ => None
  }

  lemma {:induction false} NoticedView(known: map<NodeId, Entry>, w: Wire, n: NodeId, x: Aspect)
    ensures View(Noticed(known, w), n, x) == if Speaks(w, n, x, known) then Said(w, x) else View(known, n, x)
  {
  }

  /** The last message from which clients learned of the aspect did not say what the registry
      held when it was sent. */
  function Stale(records: map<NodeId, Attributes>, steps: seq<Step>, n: NodeId, x: Aspect): bool
    requires After(records, steps).Some?
  {
    if steps == [] then false
    else
      var front, step := steps[..|steps| - 1], steps[|steps| - 1];
      var s := After(records, front).value;
      StaleAfter(s, Mirror(records, s.sent), step, n, x, Stale(records, front, n, x))
  }

  function StaleAfter(s: State, known: map<NodeId, Entry>, step: Step, n: NodeId, x: Aspect, before: bool): bool {
    if step.Run? && WorkOf(s, step.actor) != [] && WorkOf(s, step.actor)[0].Send?
       && Speaks(WorkOf(s, step.actor)[0].w, n, x, known)
    then Said(WorkOf(s, step.actor)[0].w, x) != View(s.nodes, n, x)
    else before
  }

  // ------------------------------------------------------------ what is still to come

  /** An operation next in line will tell clients of the aspect. */
  predicate Owes(nodes: map<NodeId, Entry>, m: Micro, n: NodeId, x: Aspect) {
    match m
    case ReadEntry(node, _) => node == n && n in nodes
    case Send(w) => w.node == n && !w.NodeEventSent? && (w.AttributeUpdated? ==> x == Path(w.path))
    case _ => false
  }

  predicate OwedBy(s: State, a: Actor, n: NodeId, x: Aspect) {
    WorkOf(s, a) != [] && Owes(s.nodes, WorkOf(s, a)[0], n, x)
  }

  ghost predicate Owed(s: State, n: NodeId, x: Aspect) {
    exists a :: OwedBy(s, a, n, x)
  }

  /** No actor is between a change of the node and telling of it. */
  ghost predicate Settled(s: State, n: NodeId) {
    forall x :: !Owed(s, n, x)
  }

  /** What must follow an operation: after a write a read or the message it calls for, and
      no such message after anything else. */
  predicate Followed(m: Micro, rest: seq<Micro>) {
    match m
    case SetAvailable(n, _) => rest != [] && rest[0].ReadEntry? && rest[0].node == n
    case SetAll(n, _) => rest != [] && rest[0].ReadEntry? && rest[0].node == n
    case Insert(n, _) => rest != [] && rest[0].ReadEntry? && rest[0].node == n
    case SetOne(n, path, value) => rest != [] && rest[0] == Send(AttributeUpdated(n, path, value))
    case Remove(n) => rest != [] && rest[0] == Send(NodeRemoved(n))
    case _ => rest == [] || !rest[0].Send? || rest[0].w.NodeEventSent?
  }

  predicate Formed(ms: seq<Micro>) {
    ms == [] || (Followed(ms[0], ms[1..]) && Formed(ms[1..]))
  }

  ghost predicate AllFormed(s: State) {
    forall a :: Formed(WorkOf(s, a))
  }

  lemma {:induction false} ChangeOpsFormed(n: NodeId, changes: seq<Reports.Pair>)
    ensures Formed(ChangeOps(n, changes))
  {
    if changes != [] {
      var ops, rest := ChangeOps(n, changes), ChangeOps(n, changes[1..]);
      ChangeOpsFormed(n, changes[1..]);
      assert ops[1..] == [ops[1]] + rest && ops[1..][1..] == rest;
    }
  }

  lemma {:induction false} ProgramFormed(op: Op)
    ensures Formed(Program(op))
  {
    var ms := Program(op);
    if op.Event? && op.ev.AttributesChanged? {
      ChangeOpsFormed(op.ev.node, op.ev.changes);
      assert ms[1..] == ChangeOps(op.ev.node, op.ev.changes);
    } else {
      assert |ms| > 1 ==> Formed(ms[1..][1..]);
    }
  }

  lemma {:induction false} FormedKept(s: State, step: Step)
    requires AllFormed(s) && Enabled(s, step)
    ensures AllFormed(Next(s, step))
  {
    hide Followed, Program;
    forall a ensures Formed(WorkOf(Next(s, step), a)) {
      assert Formed(WorkOf(s, a));
      if step.Spawn? {
        ProgramFormed(step.op);
      } else if a == step.actor {
        LeftFormed(s.nodes, WorkOf(s, a));
      }
    }
  }

  lemma {:induction false} LeftFormed(nodes: map<NodeId, Entry>, ms: seq<Micro>)
    requires ms != [] && Formed(ms)
    ensures Formed(Left(nodes, ms))
  {
    if ms[0].ReadEntry? && ms[0].node in nodes {
      assert Left(nodes, ms)[1..] == ms[1..];
    }
  }

  // ------------------------------------------------------------- exactly in step

  predicate Agree(nodes: map<NodeId, Entry>, known: map<NodeId, Entry>, n: NodeId, x: Aspect) {
    View(known, n, x) == View(nodes, n, x)
  }

  /** While nobody owes clients the aspect they have it right exactly when the last message
      about it was not stale; and of a node they do not know all aspects are stale alike. */
  ghost predicate Told(s: State, known: map<NodeId, Entry>, n: NodeId, x: Aspect, stale: bool, flagStale: bool) {
    && (!Owed(s, n, x) ==> (Agree(s.nodes, known, n, x) <==> !stale))
    && (n !in known ==> stale == flagStale)
  }

  lemma {:induction false} SpawnKeepsTold(s: State, step: Step, known: map<NodeId, Entry>, n: NodeId, x: Aspect,
                                          stale: bool, flagStale: bool)
    requires Enabled(s, step) && step.Spawn? && Told(s, known, n, x, stale, flagStale)
    ensures Told(Next(s, step), known, n, x, stale, flagStale)
  {
    hide Program, Owes, View;
    var after := Next(s, step);
    if Owed(s, n, x) {
      var a :| OwedBy(s, a, n, x);
      assert OwedBy(after, a, n, x);
    }
  }

  lemma {:induction false} SendKeepsTold(s: State, a: Actor, known: map<NodeId, Entry>, n: NodeId, x: Aspect,
                                         stale: bool, flagStale: bool)
    requires WorkOf(s, a) != [] && WorkOf(s, a)[0].Send?
    requires Told(s, known, n, x, stale, flagStale) && Told(s, known, n, Flag, flagStale, flagStale)
    ensures var after := Noticed(known, WorkOf(s, a)[0].w);
            Told(Next(s, Run(a)), after, n, x, StaleAfter(s, known, Run(a), n, x, stale),
                 StaleAfter(s, known, Run(a), n, Flag, flagStale))
  {
    hide Noticed, SeenIn, Owes;
    var w, after := WorkOf(s, a)[0].w, Next(s, Run(a));
    var knows := Noticed(known, w);
    NoticedView(known, w, n, x);
    NoticedView(known, w, n, Flag);
    NoticedKnows(known, w, n);
    if !Speaks(w, n, x, known) && !Owed(after, n, x) {
      OnlySenderOwes(s, a, n, x);
      if Owed(s, n, x) {
        UnheardMessage(s, a, known, n, x);
      }
    }
  }

  lemma NoticedKnows(known: map<NodeId, Entry>, w: Wire, n: NodeId)
    ensures n in Noticed(known, w) <==>
            if w.node == n && (w.NodeAdded? || w.NodeUpdated?) then true
            else if w.node == n && w.NodeRemoved? then false else n in known
  {
  }

  /** After a send others owe what they owed, so what is no longer owed was the sender's. */
  lemma {:induction false} OnlySenderOwes(s: State, a: Actor, n: NodeId, x: Aspect)
    requires WorkOf(s, a) != [] && WorkOf(s, a)[0].Send? && !Owed(Next(s, Run(a)), n, x)
    ensures forall b :: b != a ==> !OwedBy(s, b, n, x)
  {
    hide Owes;
    forall b | b != a ensures !OwedBy(s, b, n, x) {
      assert !OwedBy(Next(s, Run(a)), b, n, x);
    }
  }

  /** The one message that is owed and passed over: an attribute of a node the client does
      not know. Then nobody owes it the node itself. */
  lemma {:induction false} UnheardMessage(s: State, a: Actor, known: map<NodeId, Entry>, n: NodeId, x: Aspect)
    requires WorkOf(s, a) != [] && WorkOf(s, a)[0].Send? && !Speaks(WorkOf(s, a)[0].w, n, x, known)
    requires Owed(s, n, x) && forall b :: b != a ==> !OwedBy(s, b, n, x)
    ensures n !in known && x != Flag && !Owed(s, n, Flag)
  {
    var b :| OwedBy(s, b, n, x);
    assert b == a;
    if Owed(s, n, Flag) {
      var b' :| OwedBy(s, b', n, Flag);
      assert OwedBy(s, b', n, x);
      assert false;
    }
  }

  lemma {:induction false} WorkKeepsTold(s: State, a: Actor, known: map<NodeId, Entry>, n: NodeId, x: Aspect,
                                         stale: bool, flagStale: bool)
    requires WorkOf(s, a) != [] && !WorkOf(s, a)[0].Send? && Formed(WorkOf(s, a))
    requires Told(s, known, n, x, stale, flagStale)
    ensures Told(Next(s, Run(a)), known, n, x, stale, flagStale)
  {
    hide Owes, View, Wrote, Left, Formed;
    var after := Next(s, Run(a));
    if !Owed(after, n, x) {
      assert !OwedBy(after, a, n, x);
      WriteOrOwe(s, a, n, x);
      if Owed(s, n, x) {
        var b :| OwedBy(s, b, n, x);
        StillOwed(s, a, b, n, x);
        assert false;
      }
    }
  }

  /** An operation that changes the aspect is followed by one that owes it. */
  lemma {:induction false} WriteOrOwe(s: State, a: Actor, n: NodeId, x: Aspect)
    requires WorkOf(s, a) != [] && !WorkOf(s, a)[0].Send? && Formed(WorkOf(s, a))
    ensures var after := Next(s, Run(a));
            View(after.nodes, n, x) == View(s.nodes, n, x) || OwedBy(after, a, n, x)
  {
  }

  /** ... and what was owed still is, by the same actor or by the one that took the node
      away. */
  lemma {:induction false} StillOwed(s: State, a: Actor, b: Actor, n: NodeId, x: Aspect)
    requires WorkOf(s, a) != [] && !WorkOf(s, a)[0].Send? && Formed(WorkOf(s, a)) && OwedBy(s, b, n, x)
    ensures var after := Next(s, Run(a)); OwedBy(after, b, n, x) || OwedBy(after, a, n, x)
  {
  }

  /** In every run, however the operations interleave. */
  lemma {:induction false} AlwaysTold(records: map<NodeId, Attributes>, steps: seq<Step>, n: NodeId, x: Aspect)
    requires After(records, steps).Some?
    ensures var s := After(records, steps).value;
            && AllFormed(s)
            && Told(s, Mirror(records, s.sent), n, x, Stale(records, steps, n, x), Stale(records, steps, n, Flag))
    decreases steps, x != Flag
  {
    hide Next, Told, Formed, StaleAfter, Program, Mirror;
    if steps == [] {
      AtTheStart(records, n, x);
    } else {
      var front, step := steps[..|steps| - 1], steps[|steps| - 1];
      var s := After(records, front).value;
      AlwaysTold(records, front, n, x);
      AlwaysTold(records, front, n, Flag);
      FormedKept(s, step);
      StepKeepsTold(records, s, step, n, x, Stale(records, front, n, x), Stale(records, front, n, Flag));
    }
  }

  lemma AtTheStart(records: map<NodeId, Attributes>, n: NodeId, x: Aspect)
    ensures var s := State(Started(records).nodes, [], map[]);
            AllFormed(s) && Told(s, Mirror(records, []), n, x, false, false)
  {
  }

  lemma {:induction false} StepKeepsTold(records: map<NodeId, Attributes>, s: State, step: Step, n: NodeId, x: Aspect,
                                         stale: bool, flagStale: bool)
    requires Enabled(s, step) && AllFormed(s)
    requires Told(s, Mirror(records, s.sent), n, x, stale, flagStale)
    requires Told(s, Mirror(records, s.sent), n, Flag, flagStale, flagStale)
    ensures var after, known := Next(s, step), Mirror(records, s.sent);
            Told(after, Mirror(records, after.sent), n, x, StaleAfter(s, known, step, n, x, stale),
                 StaleAfter(s, known, step, n, Flag, flagStale))
  {
    hide Told, Formed, Mirror, Program, Wrote, Left, Speaks;
    var known := Mirror(records, s.sent);
    if step.Spawn? {
      SpawnKeepsTold(s, step, known, n, x, stale, flagStale);
    } else if WorkOf(s, step.actor)[0].Send? {
      SendKeepsTold(s, step.actor, known, n, x, stale, flagStale);
      MirrorSnoc(records, s.sent, WorkOf(s, step.actor)[0].w);
    } else {
      WorkKeepsTold(s, step.actor, known, n, x, stale, flagStale);
    }
  }

  /** Clients and the registry agree about the node. */
  predicate InStep(nodes: map<NodeId, Entry>, known: map<NodeId, Entry>, n: NodeId) {
    (n in known <==> n in nodes) && (n in nodes ==> known[n] == nodes[n])
  }

  lemma {:induction false} SameEntry(a: Entry, b: Entry)
    requires forall x :: SeenIn(a, x) == SeenIn(b, x)
    ensures a == b
  {
    assert SeenIn(a, Flag) == SeenIn(b, Flag);
    forall p ensures (p in a.attributes <==> p in b.attributes) &&
                   (p in a.attributes ==> a.attributes[p] == b.attributes[p]) {
      assert SeenIn(a, Path(p)) == SeenIn(b, Path(p));
    }
    assert a.attributes == b.attributes;
  }

  lemma {:induction false} InStepByAspect(nodes: map<NodeId, Entry>, known: map<NodeId, Entry>, n: NodeId)
    ensures InStep(nodes, known, n) <==> forall x :: Agree(nodes, known, n, x)
  {
    if forall x :: Agree(nodes, known, n, x) {
      assert Agree(nodes, known, n, Flag);
      if n in nodes {
        assert forall x :: SeenIn(nodes[n], x) == SeenIn(known[n], x) by {
          forall x ensures SeenIn(nodes[n], x) == SeenIn(known[n], x) {
            assert Agree(nodes, known, n, x);
          }
        }
        SameEntry(nodes[n], known[n]);
      }
    }
  }

  /** No aspect's last message was stale when it was sent. */
  ghost predicate Fresh(records: map<NodeId, Attributes>, steps: seq<Step>, n: NodeId)
    requires After(records, steps).Some?
  {
    forall x :: !Stale(records, steps, n, x)
  }

  lemma {:induction false} InStepIsFresh(records: map<NodeId, Attributes>, steps: seq<Step>, n: NodeId)
    requires After(records, steps).Some? && Settled(After(records, steps).value, n)
    requires var s := After(records, steps).value; InStep(s.nodes, Mirror(records, s.sent), n)
    ensures Fresh(records, steps, n)
  {
    hide After, Mirror, Stale, Agree, AllFormed, InStep, Owed;
    var s := After(records, steps).value;
    InStepByAspect(s.nodes, Mirror(records, s.sent), n);
    forall x ensures !Stale(records, steps, n, x) {
      AlwaysTold(records, steps, n, x);
      assert Agree(s.nodes, Mirror(records, s.sent), n, x) && !Owed(s, n, x);
    }
  }

  lemma {:induction false} FreshIsInStep(records: map<NodeId, Attributes>, steps: seq<Step>, n: NodeId)
    requires After(records, steps).Some? && Settled(After(records, steps).value, n)
    requires Fresh(records, steps, n)
    ensures var s := After(records, steps).value; InStep(s.nodes, Mirror(records, s.sent), n)
  {
    hide After, Mirror, Stale, Agree, AllFormed, InStep, Owed;
    var s := After(records, steps).value;
    forall x ensures Agree(s.nodes, Mirror(records, s.sent), n, x) {
      AlwaysTold(records, steps, n, x);
      assert !Stale(records, steps, n, x) && !Owed(s, n, x);
    }
    InStepByAspect(s.nodes, Mirror(records, s.sent), n);
  }

  /** Whenever no actor is between a change of a node and telling of it, a client that
      applies the broadcasts in order holds exactly what the registry holds of the node, if
      and only if no aspect's last message was stale when it was sent. */
  lemma {:induction false} ClientsMirrorTheRegistry(records: map<NodeId, Attributes>, steps: seq<Step>, n: NodeId)
    requires After(records, steps).Some? && Settled(After(records, steps).value, n)
    ensures var s := After(records, steps).value;
            InStep(s.nodes, Mirror(records, s.sent), n) <==> Fresh(records, steps, n)
  {
    hide *;
    if InStep(After(records, steps).value.nodes, Mirror(records, After(records, steps).value.sent), n) {
      InStepIsFresh(records, steps, n);
    }
    if Fresh(records, steps, n) {
      FreshIsInStep(records, steps, n);
    }
  }

  // -------------------------------------------------------------- undisturbed runs

  predicate Writes(m: Micro, n: NodeId) {
    match m
    case SetAvailable(node, _) => node == n
    case SetAll(node, _) => node == n
    case SetOne(node, _, _) => node == n
    case Insert(node, _) => node == n
    case Remove(node) => node == n
    case _ => false
  }

  /** An actor has taken down what it will tell of the node and not told it yet. */
  predicate Holds(s: State, a: Actor, n: NodeId) {
    WorkOf(s, a) != [] && WorkOf(s, a)[0].Send? && WorkOf(s, a)[0].w.node == n && !WorkOf(s, a)[0].w.NodeEventSent?
  }

  /** The step writes to a node of which another actor holds something to tell. */
  ghost predicate Disturbs(s: State, step: Step, n: NodeId) {
    && step.Run? && WorkOf(s, step.actor) != [] && Writes(WorkOf(s, step.actor)[0], n)
    && exists b :: b != step.actor && Holds(s, b, n)
  }

  ghost predicate Undisturbed(records: map<NodeId, Attributes>, steps: seq<Step>, n: NodeId)
    requires After(records, steps).Some?
  {
    steps != [] ==>
      var front := steps[..|steps| - 1];
      Undisturbed(records, front, n) && !Disturbs(After(records, front).value, steps[|steps| - 1], n)
  }

  /** What is held to be told still is so. */
  predicate Current(nodes: map<NodeId, Entry>, w: Wire) {
    match w
    case NodeAdded(n, entry) => n in nodes && nodes[n] == entry
    case NodeUpdated(n, entry) => n in nodes && nodes[n] == entry
    case NodeRemoved(n) => n !in nodes
    case AttributeUpdated(n, path, value) =>
      n in nodes ==> path in nodes[n].attributes && nodes[n].attributes[path] == value
    case NodeEventSent(_, _) => true
  }

  ghost predicate AllCurrent(s: State, n: NodeId) {
    forall a :: Holds(s, a, n) ==> Current(s.nodes, WorkOf(s, a)[0].w)
  }

  lemma {:induction false} CurrentKept(s: State, step: Step, n: NodeId)
    requires AllCurrent(s, n) && AllFormed(s) && Enabled(s, step) && !Disturbs(s, step, n)
    ensures AllCurrent(Next(s, step), n)
  {
    hide Program, Formed;
    var after := Next(s, step);
    forall b | Holds(after, b, n) ensures Current(after.nodes, WorkOf(after, b)[0].w) {
      if b == step.actor {
        if step.Spawn? {
          ProgramHoldsNothing(step.op);
        } else {
          assert Formed(WorkOf(s, b));
          JustTaken(s, b, n);
        }
      } else {
        assert Holds(s, b, n);
        OthersWrite(s, step, n);
      }
    }
  }

  lemma {:induction false} ProgramHoldsNothing(op: Op)
    ensures Program(op) != [] && !Program(op)[0].Send?
  {
  }

  /** What an actor took down by its last operation is what the registry then holds. */
  lemma {:induction false} JustTaken(s: State, a: Actor, n: NodeId)
    requires WorkOf(s, a) != [] && Formed(WorkOf(s, a)) && Holds(Next(s, Run(a)), a, n)
    requires Holds(s, a, n) ==> Current(s.nodes, WorkOf(s, a)[0].w)
    ensures var after := Next(s, Run(a)); Current(after.nodes, WorkOf(after, a)[0].w)
  {
  }

  /** A step that writes nothing to the node leaves it as it was. */
  lemma OthersWrite(s: State, step: Step, n: NodeId)
    requires Enabled(s, step) && !(step.Run? && Writes(WorkOf(s, step.actor)[0], n))
    ensures var after := Next(s, step);
            (n in after.nodes <==> n in s.nodes) && (n in s.nodes ==> after.nodes[n] == s.nodes[n])
  {
  }

  /** In an undisturbed run no message about the node is stale when it is sent. */
  lemma {:induction false} UndisturbedIsFresh(records: map<NodeId, Attributes>, steps: seq<Step>, n: NodeId, x: Aspect)
    requires After(records, steps).Some? && Undisturbed(records, steps, n)
    ensures AllCurrent(After(records, steps).value, n) && Apart(After(records, steps).value, n)
    ensures !Stale(records, steps, n, x)
    decreases steps, x != Flag
  {
    hide Next, AllCurrent, Apart, AllFormed, Told, Disturbs, StaleAfter, Program, Mirror;
    if steps == [] {
      NothingHeld(records, n);
    } else {
      var front, step := steps[..|steps| - 1], steps[|steps| - 1];
      var s := After(records, front).value;
      UndisturbedIsFresh(records, front, n, x);
      UndisturbedIsFresh(records, front, n, Flag);
      AlwaysTold(records, front, n, Flag);
      CurrentKept(s, step, n);
      ApartKept(s, step, n);
      SentFresh(s, Mirror(records, s.sent), step, n, x);
    }
  }

  lemma NothingHeld(records: map<NodeId, Attributes>, n: NodeId)
    ensures AllCurrent(State(Started(records).nodes, [], map[]), n) &&
            Apart(State(Started(records).nodes, [], map[]), n)
  {
  }

  /** Nobody holds a change of an attribute while another holds the node's removal. */
  ghost predicate Apart(s: State, n: NodeId) {
    forall a, b :: !(HoldsChange(s, a, n) && HoldsRemoval(s, b, n))
  }

  predicate HoldsChange(s: State, a: Actor, n: NodeId) {
    Holds(s, a, n) && WorkOf(s, a)[0].w.AttributeUpdated?
  }

  predicate HoldsRemoval(s: State, a: Actor, n: NodeId) {
    Holds(s, a, n) && WorkOf(s, a)[0].w.NodeRemoved?
  }

  lemma Unmoved(s: State, step: Step, b: Actor, n: NodeId)
    requires Enabled(s, step)
    ensures b != step.actor ==>
              && (HoldsChange(Next(s, step), b, n) <==> HoldsChange(s, b, n))
              && (HoldsRemoval(Next(s, step), b, n) <==> HoldsRemoval(s, b, n))
    ensures HoldsChange(s, b, n) || HoldsRemoval(s, b, n) ==> Holds(s, b, n)
    ensures !(HoldsChange(Next(s, step), b, n) && HoldsRemoval(Next(s, step), b, n))
  {
  }

  lemma {:induction false} SpawnHoldsNothing(s: State, step: Step, n: NodeId)
    requires Enabled(s, step) && step.Spawn?
    ensures !HoldsChange(Next(s, step), step.actor, n) && !HoldsRemoval(Next(s, step), step.actor, n)
  {
    hide Program;
    ProgramHoldsNothing(step.op);
  }

  lemma {:induction false} ApartKept(s: State, step: Step, n: NodeId)
    requires Apart(s, n) && AllFormed(s) && Enabled(s, step) && !Disturbs(s, step, n)
    ensures Apart(Next(s, step), n)
  {
    hide Program, Formed, Wrote, HoldsChange, HoldsRemoval;
    var after := Next(s, step);
    if step.Spawn? {
      SpawnHoldsNothing(s, step, n);
    } else {
      assert Formed(WorkOf(s, step.actor));
      NewHolders(s, step.actor, n);
    }
    forall a, b ensures !(HoldsChange(after, a, n) && HoldsRemoval(after, b, n)) {
      assert !(HoldsChange(s, a, n) && HoldsRemoval(s, b, n));
      Unmoved(s, step, a, n);
      Unmoved(s, step, b, n);
    }
  }

  /** A change or a removal is taken down by an operation that writes to the node. */
  lemma {:induction false} NewHolders(s: State, a: Actor, n: NodeId)
    requires WorkOf(s, a) != [] && Formed(WorkOf(s, a))
    ensures var after := Next(s, Run(a));
            HoldsChange(after, a, n) || HoldsRemoval(after, a, n) ==> Writes(WorkOf(s, a)[0], n)
  {
  }

  lemma {:induction false} GoneIsNotOwed(s: State, a: Actor, n: NodeId)
    requires AllCurrent(s, n) && Apart(s, n) && HoldsChange(s, a, n) && n !in s.nodes
    ensures !Owed(s, n, Flag)
  {
    forall b ensures !OwedBy(s, b, n, Flag) {
      assert !(HoldsChange(s, a, n) && HoldsRemoval(s, b, n));
      assert Holds(s, b, n) ==> Current(s.nodes, WorkOf(s, b)[0].w);
    }
  }

  /** A message that is still so is fresh; a change of an attribute of a node that was taken
      away since is passed over, because the client was told. */
  lemma {:induction false} SentFresh(s: State, known: map<NodeId, Entry>, step: Step, n: NodeId, x: Aspect)
    requires Enabled(s, step) && AllCurrent(s, n) && Apart(s, n)
    requires Told(s, known, n, Flag, false, false)
    ensures !StaleAfter(s, known, step, n, x, false)
  {
    if step.Run? && WorkOf(s, step.actor)[0].Send? {
      var w := WorkOf(s, step.actor)[0].w;
      if Speaks(w, n, x, known) {
        assert Holds(s, step.actor, n) && Current(s.nodes, w);
        if w.AttributeUpdated? && n !in s.nodes {
          GoneIsNotOwed(s, step.actor, n);
        }
      }
    }
  }

  /** If no step writes to the node while another actor holds something to tell of it, clients
      have the node right whenever it is settled. */
  lemma {:induction false} UndisturbedMirror(records: map<NodeId, Attributes>, steps: seq<Step>, n: NodeId)
    requires After(records, steps).Some? && Undisturbed(records, steps, n) && Settled(After(records, steps).value, n)
    ensures var s := After(records, steps).value; InStep(s.nodes, Mirror(records, s.sent), n)
  {
    hide After, Undisturbed, Settled, Stale, Mirror, InStep;
    forall x ensures !Stale(records, steps, n, x) {
      UndisturbedIsFresh(records, steps, n, x);
    }
    FreshIsInStep(records, steps, n);
  }
}
