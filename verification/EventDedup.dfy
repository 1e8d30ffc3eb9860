/** Which events of a node are forwarded, over whole runs of the protocol. */
module EventDedup {
  import Reports
  import opened Reassembly
  import opened StackContext
  import opened Supervision

  /** What a run does to the event marks: a number primed, a number reported under an
      accepted report, a node's mark cleared. */
  datatype Act = Primed(node: NodeId, number: nat) | Reported(node: NodeId, number: nat) | Cleared(node: NodeId)

  /** The marks after the acts, and the events forwarded. */
  function Marks(acts: seq<Act>): (map<NodeId, nat>, seq<(NodeId, nat)>) {
    if acts == [] then (map[], [])
    else
      var (last, sent) := Marks(acts[..|acts| - 1]);
      match acts[|acts| - 1]
      case Cleared(n) => (last - {n}, sent)
      case Primed(n, e) => (Note(last, n, e), sent)
      case Reported(n, e) => (Note(last, n, e), if IsNew(last, n, e) then sent + [(n, e)] else sent)
  }

  /** Every number seen of a node since its mark was last cleared, primed or reported,
      forwarded or not. */
  function Seen(acts: seq<Act>, n: NodeId): seq<nat> {
    if acts == [] then []
    else
      var before, act := Seen(acts[..|acts| - 1], n), acts[|acts| - 1];
      if act.node != n then before else if act.Cleared? then [] else before + [act.number]
  }

  predicate AllBelow(numbers: seq<nat>, e: nat) {
    forall k :: 0 <= k < |numbers| ==> numbers[k] < e
  }

  /** The numbers of a node forwarded since its mark was last cleared: those reported when
      everything seen until then was lower. */
  function Fresh(acts: seq<Act>, n: NodeId): seq<nat> {
    if acts == [] then []
    else
      var front, act := acts[..|acts| - 1], acts[|acts| - 1];
      if act.node != n then Fresh(front, n)
      else if act.Cleared? then []
      else if act.Reported? && AllBelow(Seen(front, n), act.number) then Fresh(front, n) + [act.number]
      else Fresh(front, n)
  }

  /** Everything forwarded of a node, over all its clearings. */
  function EverFresh(acts: seq<Act>, n: NodeId): seq<nat> {
    if acts == [] then []
    else
      var front, act := acts[..|acts| - 1], acts[|acts| - 1];
      if act.Reported? && act.node == n && AllBelow(Seen(front, n), act.number) then EverFresh(front, n) + [act.number]
      else EverFresh(front, n)
  }

  function NumbersOf(sent: seq<(NodeId, nat)>, n: NodeId): seq<nat> {
    if sent == [] then []
    else
      var front, last := NumbersOf(sent[..|sent| - 1], n), sent[|sent| - 1];
      if last.0 == n then front + [last.1] else front
  }

  function ActsOf(acts: seq<Act>, n: NodeId): seq<Act> {
    if acts == [] then []
    else
      var front, act := ActsOf(acts[..|acts| - 1], n), acts[|acts| - 1];
      if act.node == n then front + [act] else front
  }

  // ------------------------------------------------------------------- the marks

  /** The mark is the highest number seen, and there is none exactly when none was seen. */
  predicate MarkIsHighest(last: map<NodeId, nat>, seen: seq<nat>, n: NodeId) {
    && (n in last <==> seen != [])
    && (n in last ==> last[n] in seen && AllBelow(seen, last[n] + 1))
  }

  lemma {:induction false} NewIsAboveAll(last: map<NodeId, nat>, seen: seq<nat>, n: NodeId, e: nat)
    requires MarkIsHighest(last, seen, n)
    ensures IsNew(last, n, e) <==> AllBelow(seen, e)
    ensures MarkIsHighest(Note(last, n, e), seen + [e], n)
  {
    if n in last {
      var k :| 0 <= k < |seen| && seen[k] == last[n];
      assert (seen + [e])[k] == last[n] && (seen + [e])[|seen|] == e;
    } else {
      assert seen + [e] == [e];
    }
  }

  /** Along every run the mark of a node is the highest number seen of it since it was
      cleared, and a reported event is forwarded exactly when it is above all of those:
      the first event counts even when its number is 0. */
  lemma {:induction false} ForwardedExactly(acts: seq<Act>, n: NodeId)
    ensures MarkIsHighest(Marks(acts).0, Seen(acts, n), n)
    ensures NumbersOf(Marks(acts).1, n) == EverFresh(acts, n)
  {
    hide MarkIsHighest, AllBelow, Note, IsNew;
    if acts == [] {
      NothingSeen(n);
    } else {
      var front, act := acts[..|acts| - 1], acts[|acts| - 1];
      ForwardedExactly(front, n);
      var (last, sent) := Marks(front);
      if act.node != n {
        OtherMark(last, Marks(acts).0, Seen(front, n), n, act);
      } else if act.Cleared? {
        ClearedMark(last, n);
      } else {
        NewIsAboveAll(last, Seen(front, n), n, act.number);
      }
      if act.Reported? {
        var more := sent + [(act.node, act.number)];
        assert more[..|sent|] == sent;
      }
    }
  }

  lemma NothingSeen(n: NodeId)
    ensures MarkIsHighest(map[], [], n)
  {
  }

  lemma ClearedMark(last: map<NodeId, nat>, n: NodeId)
    ensures MarkIsHighest(last - {n}, [], n)
  {
  }

  lemma OtherMark(last: map<NodeId, nat>, after: map<NodeId, nat>, seen: seq<nat>, n: NodeId, act: Act)
    requires MarkIsHighest(last, seen, n) && act.node != n
    requires after == if act.Cleared? then last - {act.node} else Note(last, act.node, act.number)
    ensures MarkIsHighest(after, seen, n)
  {
  }

  predicate Increasing(numbers: seq<nat>) {
    forall i, j :: 0 <= i < j < |numbers| ==> numbers[i] < numbers[j]
  }

  /** Between two clearings the forwarded numbers strictly increase, and every number seen
      earlier, in priming or in a report, stays below each later one forwarded. */
  lemma {:induction false} FreshIncreases(acts: seq<Act>, n: NodeId)
    ensures Increasing(Fresh(acts, n))
    ensures forall e :: e in Fresh(acts, n) ==> e in Seen(acts, n)
  {
    if acts != [] {
      var front, act := acts[..|acts| - 1], acts[|acts| - 1];
      FreshIncreases(front, n);
      var before, seen := Fresh(front, n), Seen(front, n);
      forall i | 0 <= i < |before| && act.node == n && !act.Cleared?
        ensures before[i] in Seen(acts, n) && (AllBelow(seen, act.number) ==> before[i] < act.number)
      {
        assert before[i] in before;
        var k :| 0 <= k < |seen| && seen[k] == before[i];
        assert Seen(acts, n)[k] == before[i];
      }
    }
  }

  /** What is forwarded since the last clearing is the tail of what was ever forwarded. */
  lemma {:induction false} FreshIsTheTail(acts: seq<Act>, n: NodeId)
    ensures |Fresh(acts, n)| <= |EverFresh(acts, n)|
    ensures EverFresh(acts, n)[|EverFresh(acts, n)| - |Fresh(acts, n)|..] == Fresh(acts, n)
  {
    hide AllBelow, Seen;
    if acts != [] {
      FreshIsTheTail(acts[..|acts| - 1], n);
    }
  }

  lemma {:induction false} MarksPerNode(acts: seq<Act>, n: NodeId)
    ensures Seen(acts, n) == Seen(ActsOf(acts, n), n)
    ensures EverFresh(acts, n) == EverFresh(ActsOf(acts, n), n)
  {
    hide AllBelow;
    if acts != [] {
      MarksPerNode(acts[..|acts| - 1], n);
      var own := ActsOf(acts[..|acts| - 1], n);
      assert (own + [acts[|acts| - 1]])[..|own|] == own;
    }
  }

  // ------------------------------------------------------------- runs of the protocol

  function PrimedAll(n: NodeId, numbers: seq<nat>): seq<Act> {
    if numbers == [] then [] else PrimedAll(n, numbers[..|numbers| - 1]) + [Primed(n, numbers[|numbers| - 1])]
  }

  function ReportedAll(n: NodeId, numbers: seq<nat>): seq<Act> {
    if numbers == [] then [] else ReportedAll(n, numbers[..|numbers| - 1]) + [Reported(n, numbers[|numbers| - 1])]
  }

  /** What one step does to the marks. Establishing, going lost and stopping clear the
      node's; so an attempt to establish starts clean, and priming seeds it. */
  function ActsOfStep(m: Machine, step: Step): seq<Act>
    requires Enabled(m, step)
  {
    match step
    case Stop(n) => [Cleared(n)]
    case Begin(t) => [Cleared(m.tasks[t].node)]
    case Retry(t) => [Cleared(m.tasks[t].node)]
    case Poll(t) => if FoundSilent(m.sh, m.tasks[t]) then [Cleared(m.tasks[t].node)] else []
    case Prime(t, chunk) => PrimedAll(m.tasks[t].node, chunk.events)
    case Deliver(from, report, _) => if Accepts(m.sh, from) then ReportedAll(from.node, report.events) else []
    case _ => []
  }

  function ActsOfRun(types: Reports.AttrTypes, steps: seq<Step>): seq<Act>
    requires After(types, steps).Some?
  {
    if steps == [] then []
    else
      var front := steps[..|steps| - 1];
      ActsOfRun(types, front) + ActsOfStep(After(types, front).value, steps[|steps| - 1])
  }

  /** The node events among everything sent to the controller. */
  function EventsSent(events: seq<StackEvent>): seq<(NodeId, nat)> {
    if events == [] then []
    else
      var front, last := EventsSent(events[..|events| - 1]), events[|events| - 1];
      if last.NodeEvent? then front + [(last.node, last.number)] else front
  }

  lemma {:induction false} EventsSentBoth(a: seq<StackEvent>, b: seq<StackEvent>)
    ensures EventsSent(a + b) == EventsSent(a) + EventsSent(b)
  {
    if b == [] {
      assert a + b == a;
    } else {
      EventsSentBoth(a, b[..|b| - 1]);
      assert (a + b)[..|a + b| - 1] == a + b[..|b| - 1];
    }
  }

  function Tagged(n: NodeId, numbers: seq<nat>): seq<(NodeId, nat)> {
    if numbers == [] then [] else Tagged(n, numbers[..|numbers| - 1]) + [(n, numbers[|numbers| - 1])]
  }

  lemma {:induction false} EventsOfNumbers(n: NodeId, numbers: seq<nat>)
    ensures EventsSent(NodeEvents(n, numbers)) == Tagged(n, numbers)
  {
    if numbers != [] {
      EventsOfNumbers(n, numbers[..|numbers| - 1]);
      var front := NodeEvents(n, numbers[..|numbers| - 1]);
      assert (front + [NodeEvent(n, numbers[|numbers| - 1])])[..|front|] == front;
    }
  }

  lemma {:induction false} MarksOfPriming(acts: seq<Act>, n: NodeId, numbers: seq<nat>)
    ensures Marks(acts + PrimedAll(n, numbers)) == (NoteAll(Marks(acts).0, n, numbers), Marks(acts).1)
  {
    hide Note;
    if numbers == [] {
      assert acts + [] == acts;
    } else {
      var front := numbers[..|numbers| - 1];
      MarksOfPriming(acts, n, front);
      var all := acts + PrimedAll(n, numbers);
      assert all[..|all| - 1] == acts + PrimedAll(n, front);
    }
  }

  lemma NothingTagged(n: NodeId)
    ensures Tagged(n, []) == []
  {
  }

  lemma {:induction false} MarksOfReporting(acts: seq<Act>, n: NodeId, numbers: seq<nat>)
    ensures Marks(acts + ReportedAll(n, numbers))
         == (NoteAll(Marks(acts).0, n, numbers), Marks(acts).1 + Tagged(n, NewOnes(Marks(acts).0, n, numbers)))
  {
    hide Note, IsNew, Marks, Tagged;
    var (last, sent) := Marks(acts);
    if numbers == [] {
      assert Tagged(n, []) == [] by { NothingTagged(n); }
      assert acts + [] == acts && sent + [] == sent;
    } else {
      var front, e := numbers[..|numbers| - 1], numbers[|numbers| - 1];
      MarksOfReporting(acts, n, front);
      assert acts + ReportedAll(n, numbers) == (acts + ReportedAll(n, front)) + [Reported(n, e)];
      MarksOfOne(acts + ReportedAll(n, front), n, e);
      TaggedSnoc(n, NewOnes(last, n, front), e);
      assert sent + (Tagged(n, NewOnes(last, n, front)) + [(n, e)]) ==
             sent + Tagged(n, NewOnes(last, n, front)) + [(n, e)];
    }
  }

  lemma {:induction false} MarksOfOne(acts: seq<Act>, n: NodeId, e: nat)
    ensures var (last, sent) := Marks(acts);
            Marks(acts + [Reported(n, e)]) == (Note(last, n, e), if IsNew(last, n, e) then sent + [(n, e)] else sent)
  {
    assert (acts + [Reported(n, e)])[..|acts|] == acts;
  }

  lemma {:induction false} TaggedSnoc(n: NodeId, numbers: seq<nat>, e: nat)
    ensures Tagged(n, numbers + [e]) == Tagged(n, numbers) + [(n, e)]
  {
    assert (numbers + [e])[..|numbers|] == numbers;
  }

  lemma {:induction false} MarksOfClearing(acts: seq<Act>, n: NodeId)
    ensures Marks(acts + [Cleared(n)]) == (Marks(acts).0 - {n}, Marks(acts).1)
  {
    assert (acts + [Cleared(n)])[..|acts|] == acts;
  }

  lemma {:induction false} DeliveryMarks(types: Reports.AttrTypes, acts: seq<Act>, sh: Shared, from: Source,
      report: Reports.Report, now: Time)
    requires Marks(acts) == (sh.lastEvent, EventsSent(sh.events)) && Accepts(sh, from)
    ensures var after := Handle(types, sh, from, report, now);
            Marks(acts + ReportedAll(from.node, report.events)) == (after.lastEvent, EventsSent(after.events))
  {
    hide Marks, NoteAll, NewOnes, NodeEvents, Absorbing, Tagged, ReportedAll;
    var n := from.node;
    var released := Absorbing(types, sh.pending, n, report).1;
    var changed := if released.Some? && released.value != [] then [AttributesChanged(n, released.value)] else [];
    var news := NewOnes(sh.lastEvent, n, report.events);
    MarksOfReporting(acts, n, report.events);
    EventsSentBoth(sh.events, changed);
    EventsSentBoth(sh.events + changed, NodeEvents(n, news));
    EventsOfNumbers(n, news);
    assert EventsSent(changed) == [] by { assert changed != [] ==> changed[..|changed| - 1] == []; }
    assert EventsSent(sh.events) + [] + Tagged(n, news) == EventsSent(sh.events) + Tagged(n, news);
  }

  lemma {:induction false} SentAreNoEvents(events: seq<StackEvent>, a: StackEvent, b: StackEvent)
    requires !a.NodeEvent? && !b.NodeEvent?
    ensures EventsSent(events + [a]) == EventsSent(events) == EventsSent(events + [a, b])
  {
    assert (events + [a])[..|events|] == events;
    assert (events + [a, b])[..|events| + 1] == events + [a];
  }

  lemma {:induction false} StepMarks(types: Reports.AttrTypes, acts: seq<Act>, m: Machine, step: Step)
    requires Enabled(m, step) && Marks(acts) == (m.sh.lastEvent, EventsSent(m.sh.events))
    ensures var after := Next(types, m, step);
            Marks(acts + ActsOfStep(m, step)) == (after.sh.lastEvent, EventsSent(after.sh.events))
  {
    hide Marks, NoteAll, FoundSilent, Polled, EventsSent, Handle, Cancelled, Batch, PrimedAll, ReportedAll;
    if step.Poll? {
      PollKeeps(m, step.task);
      PollOutcome(m, step.task);
    }
    assert acts + [] == acts;
    match step {
      case Prime(t, chunk) => MarksOfPriming(acts, m.tasks[t].node, chunk.events);
      case Deliver(from, report, now) =>
        if Accepts(m.sh, from) {
          DeliveryMarks(types, acts, m.sh, from, report, now);
        }
      case Stop(n) => MarksOfClearing(acts, n);
      case Begin(t) => MarksOfClearing(acts, m.tasks[t].node);
      case Retry(t) => MarksOfClearing(acts, m.tasks[t].node);
      case Poll(t) =>
        MarksOfClearing(acts, m.tasks[t].node);
        SentAreNoEvents(m.sh.events, NodeState(m.tasks[t].node, Reconnecting),
                        NodeState(m.tasks[t].node, Reconnecting));
      case Establish(t, _, maxInterval, _) =>
        SentAreNoEvents(m.sh.events, NodeState(m.tasks[t].node, Connected(maxInterval)),
                        PrimingSnapshot(m.tasks[t].node, Snapshot(m.tasks[t].phase.acc)));
      case Fail(t) =>
        SentAreNoEvents(m.sh.events, NodeState(m.tasks[t].node, Reconnecting),
                        NodeState(m.tasks[t].node, Reconnecting));
      case _ =>
    }
  }

  lemma {:induction false} RunMarks(types: Reports.AttrTypes, steps: seq<Step>)
    requires After(types, steps).Some?
    ensures var m := After(types, steps).value;
            Marks(ActsOfRun(types, steps)) == (m.sh.lastEvent, EventsSent(m.sh.events))
  {
    hide Next, Marks, EventsSent, ActsOfStep;
    if steps == [] {
      assert Marks([]) == (map[], []) && EventsSent([]) == [] by { NoMarks(); }
    } else {
      var front := steps[..|steps| - 1];
      RunMarks(types, front);
      StepMarks(types, ActsOfRun(types, front), After(types, front).value, steps[|steps| - 1]);
    }
  }

  lemma NoMarks()
    ensures Marks([]) == (map[], []) && EventsSent([]) == []
  {
  }

  /** In every reachable state, overlap or not: the event numbers of a node sent to the
      controller are exactly those reported above everything seen since its mark was last
      cleared, and those sent since then strictly increase. */
  lemma {:induction false} EventsOfARun(types: Reports.AttrTypes, steps: seq<Step>, n: NodeId)
    requires After(types, steps).Some?
    ensures var acts, sent := ActsOfRun(types, steps), NumbersOf(EventsSent(After(types, steps).value.sh.events), n);
            && sent == EverFresh(acts, n)
            && |Fresh(acts, n)| <= |sent|
            && sent[|sent| - |Fresh(acts, n)|..] == Fresh(acts, n)
            && Increasing(Fresh(acts, n))
  {
    hide *;
    RunMarks(types, steps);
    ForwardedExactly(ActsOfRun(types, steps), n);
    FreshIsTheTail(ActsOfRun(types, steps), n);
    FreshIncreases(ActsOfRun(types, steps), n);
  }
}
