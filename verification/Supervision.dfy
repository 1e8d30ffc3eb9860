/** The protocol of the request loop, the supervisor tasks and the report handler, as
    atomic steps: on the single stack thread everything between two awaits is one step.
    A dropped task is only marked; its future, and with it its subscription guard, is
    destroyed by a later step. */
module Supervision {
  import opened Wrappers
  import opened Json
  import opened Reports
  import opened Reassembly
  import opened StackContext
  import Liveness

  type TaskId = nat

  /** Where a supervisor task waits. `inst` numbers the attempts to establish, `acc` is what
      the priming report added up to so far; `since` is when the watch began, `polls` how
      often it has looked. */
  datatype Phase =
    | Starting
    | Establishing(inst: nat, acc: seq<Pair>)
    | Watching(inst: nat, sub: SubId, since: Time, maxInterval: nat, polls: nat)
    | BackingOff

  datatype Task = Task(node: NodeId, phase: Phase, cancelled: bool)

  /** The shared state, the tasks not yet destroyed and the handles the request loop
      keeps; and, as history, under which attempt each subscription entry was written and
      each message of an unfinished or released batch was accepted. */
  datatype Machine = Machine(
    sh: Shared,
    running: map<NodeId, TaskId>,
    tasks: map<TaskId, Task>,
    open: bool,
    next: nat,
    owner: map<NodeId, nat>,
    sources: map<NodeId, seq<nat>>,
    batches: seq<seq<nat>>)

  datatype Step =
    | Start(node: NodeId)
    | Stop(node: NodeId)
    | Shutdown
    | Begin(task: TaskId)
    | Prime(task: TaskId, chunk: Report)
    | Establish(task: TaskId, sub: SubId, maxInterval: nat, now: Time)
    | Fail(task: TaskId)
    | Retry(task: TaskId)
    | Poll(task: TaskId)
    | Destroy(task: TaskId)
    | Deliver(from: Source, report: Report, now: Time)

  const INITIAL := Machine(Shared(map[], map[], map[], map[], []), map[], map[], true, 0, map[], map[], [])

  /** A task that may run: its handle was not dropped. */
  predicate Live(m: Machine, t: TaskId) {
    t in m.tasks && !m.tasks[t].cancelled
  }

  predicate Enabled(m: Machine, step: Step) {
    match step
    case Start(_) => m.open
    case Stop(_) => m.open
    case Shutdown => m.open
    case Begin(t) => Live(m, t) && m.tasks[t].phase.Starting?
    case Prime(t, _) => Live(m, t) && m.tasks[t].phase.Establishing?
    case Establish(t, _, _, _) => Live(m, t) && m.tasks[t].phase.Establishing?
    case Fail(t) => Live(m, t) && m.tasks[t].phase.Establishing?
    case Retry(t) => Live(m, t) && m.tasks[t].phase.BackingOff?
    case Poll(t) => Live(m, t) && m.tasks[t].phase.Watching?
    case Destroy(t) => t in m.tasks && m.tasks[t].cancelled
    case Deliver(_, _, _) => true
  }

  function Cancelled(tasks: map<TaskId, Task>, running: map<NodeId, TaskId>, node: NodeId): map<TaskId, Task> {
    if node in running && running[node] in tasks
    then tasks[running[node] := tasks[running[node]].(cancelled := true)] else tasks
  }

  function InPhase(m: Machine, t: TaskId, phase: Phase): Machine
    requires t in m.tasks
  {
    m.(tasks := m.tasks[t := m.tasks[t].(phase := phase)])
  }

  /** `Clear`, with the history that goes with it. */
  function Forgotten(m: Machine, node: NodeId): Machine {
    m.(sh := Clear(m.sh, node), sources := m.sources - {node})
  }

  /** The head of `establish`, up to its first await. */
  function Attempt(m: Machine, t: TaskId): Machine
    requires t in m.tasks
  {
    InPhase(Forgotten(m, m.tasks[t].node), t, Establishing(m.next, [])).(next := m.next + 1)
  }

  /** One chunk of the priming report: its attributes add up, its events seed the mark. */
  function Primed(types: AttrTypes, m: Machine, t: TaskId, chunk: Report): Machine
    requires t in m.tasks && m.tasks[t].phase.Establishing?
  {
    var phase, n := m.tasks[t].phase, m.tasks[t].node;
    InPhase(m, t, Establishing(phase.inst, ApplyAll(phase.acc, Changes(types, AttrsOf(chunk)))))
      .(sh := m.sh.(lastEvent := NoteAll(m.sh.lastEvent, n, chunk.events)))
  }

  /** The pairs as a map (`BTreeMap`). */
  function Snapshot(pairs: seq<Pair>): map<string, Value> {
    if pairs == [] then map[] else Snapshot(pairs[..|pairs| - 1])[pairs[|pairs| - 1].0 := pairs[|pairs| - 1].1]
  }

  /** When a watching task polls next. */
  function PollTime(phase: Phase): Time
    requires phase.Watching?
  {
    phase.since + (phase.polls + 1) * Liveness.POLL
  }

  /** Its next poll finds the subscription silent for the whole deadline. */
  predicate FoundSilent(sh: Shared, task: Task)
    requires task.phase.Watching?
  {
    var last := if task.node in sh.liveness then Some(sh.liveness[task.node]) else None;
    Liveness.Expired(last, task.phase.since, PollTime(task.phase), Liveness.Deadline(task.phase.maxInterval))
  }

  function Released(sh: Shared, task: Task): Shared {
    if task.phase.Watching? then Release(sh, task.node, task.phase.sub) else sh
  }

  /** A poll either goes on watching, or gives the subscription up, says so and tries again. */
  function Polled(m: Machine, t: TaskId): Machine
    requires t in m.tasks && m.tasks[t].phase.Watching?
  {
    var phase := m.tasks[t].phase;
    if FoundSilent(m.sh, m.tasks[t]) then Attempt(m.(sh := Lose(Released(m.sh, m.tasks[t]), m.tasks[t].node)), t)
    else InPhase(m, t, phase.(polls := phase.polls + 1))
  }

  /** What a poll leaves alone ... */
  lemma {:induction false} PollKeeps(m: Machine, t: TaskId)
    requires t in m.tasks && m.tasks[t].phase.Watching?
    ensures var after := Polled(m, t);
            && after.running == m.running && after.open == m.open
            && after.owner == m.owner && after.batches == m.batches
            && after.next >= m.next && after.tasks.Keys == m.tasks.Keys
            && after.tasks[t].node == m.tasks[t].node && after.tasks[t].cancelled == m.tasks[t].cancelled
            && forall u :: u in m.tasks && u != t ==> after.tasks[u] == m.tasks[u]
  {
    hide FoundSilent, Lose, Released, Clear;
  }

  /** ... and what it does when it finds the subscription silent, and when not. */
  lemma {:induction false} PollOutcome(m: Machine, t: TaskId)
    requires t in m.tasks && m.tasks[t].phase.Watching?
    ensures var after, task := Polled(m, t), m.tasks[t];
            if FoundSilent(m.sh, task) then
              && after.sh == Clear(Lose(Release(m.sh, task.node, task.phase.sub), task.node), task.node)
              && after.sources == m.sources - {task.node} && after.next == m.next + 1
              && after.tasks[t].phase == Establishing(m.next, [])
            else
              && after.sh == m.sh && after.sources == m.sources && after.next == m.next
              && after.tasks[t].phase == task.phase.(polls := task.phase.polls + 1)
  {
    hide FoundSilent, Lose, Release, Clear;
  }

  /** The attempts under which the messages of the batch so far were accepted. */
  function Batch(m: Machine, node: NodeId): seq<nat> {
    (if node in m.sources then m.sources[node] else []) + [if node in m.owner then m.owner[node] else 0]
  }

  function Delivered(types: AttrTypes, m: Machine, from: Source, report: Report, now: Time): Machine {
    if !Accepts(m.sh, from) then m
    else
      var n := from.node;
      var after := m.(sh := Handle(types, m.sh, from, report, now));
      if MoreFollows(report) then after.(sources := m.sources[n := Batch(m, n)])
      else after.(sources := m.sources - {n}, batches := m.batches + [Batch(m, n)])
  }

  function Next(types: AttrTypes, m: Machine, step: Step): Machine
    requires Enabled(m, step)
  {
    match step
    case Start(n) =>
      m.(tasks := Cancelled(m.tasks, m.running, n)[m.next := Task(n, Starting, false)],
         running := m.running[n := m.next], next := m.next + 1)
    case Stop(n) =>
      Forgotten(m.(tasks := Cancelled(m.tasks, m.running, n), running := m.running - {n}), n)
    case Shutdown =>
      m.(tasks := map t | t in m.tasks :: m.tasks[t].(cancelled := true), running := map[], open := false)
    case Begin(t) => Attempt(m, t)
    case Prime(t, chunk) => Primed(types, m, t, chunk)
    case Establish(t, sub, maxInterval, now) =>
      var n, i, attributes := m.tasks[t].node, m.tasks[t].phase.inst, Snapshot(m.tasks[t].phase.acc);
      InPhase(m, t, Watching(i, sub, now, maxInterval, 0))
        .(sh := Own(m.sh, n, sub, maxInterval, attributes, now), owner := m.owner[n := i])
    case Fail(t) => InPhase(m, t, BackingOff).(sh := Lose(m.sh, m.tasks[t].node))
    case Retry(t) => Attempt(m, t)
    case Poll(t) => Polled(m, t)
    case Destroy(t) => m.(sh := Released(m.sh, m.tasks[t]), tasks := m.tasks - {t})
    case Deliver(from, report, now) => Delivered(types, m, from, report, now)
  }

  // ------------------------------------------------------- every reachable state

  /** The guard of task `t` stands for the subscription `sub` of `node`. */
  predicate Guards(m: Machine, t: TaskId, node: NodeId, sub: SubId) {
    t in m.tasks && m.tasks[t].node == node && m.tasks[t].phase.Watching? && m.tasks[t].phase.sub == sub
  }

  ghost predicate Guarded(m: Machine, node: NodeId, sub: SubId) {
    exists t :: Guards(m, t, node, sub)
  }

  /** Each subscription entry is held by the guard of a task not yet destroyed. */
  ghost predicate EntriesGuarded(m: Machine) {
    forall n :: n in m.sh.subs ==> Guarded(m, n, m.sh.subs[n])
  }

  /** The handles are those of the tasks that may run, one for each node. */
  ghost predicate HandlesMatch(m: Machine) {
    && (forall n :: n in m.running ==> Live(m, m.running[n]) && m.tasks[m.running[n]].node == n)
    && (forall t :: Live(m, t) ==> m.tasks[t].node in m.running && m.running[m.tasks[t].node] == t)
    && (forall t :: t in m.tasks ==> t < m.next)
  }

  ghost predicate HistoryMatches(m: Machine) {
    m.sources.Keys == m.sh.pending.Keys
  }

  ghost predicate Inv(m: Machine) {
    EntriesGuarded(m) && HandlesMatch(m) && HistoryMatches(m)
  }

  /** The steps of the request loop, and the destruction of a task, change handles ... */
  predicate ChangesHandles(step: Step) {
    step.Start? || step.Stop? || step.Shutdown? || step.Destroy?
  }

  /** ... every other step moves at most one live task to another phase. */
  predicate SameHandles(m: Machine, after: Machine) {
    && after.running == m.running && after.tasks.Keys == m.tasks.Keys && after.next >= m.next
    && forall t :: t in m.tasks ==>
         after.tasks[t].node == m.tasks[t].node && after.tasks[t].cancelled == m.tasks[t].cancelled
  }

  lemma {:induction false} TaskStepsKeepHandles(types: AttrTypes, m: Machine, step: Step)
    requires Enabled(m, step) && !ChangesHandles(step)
    ensures SameHandles(m, Next(types, m, step))
  {
    hide Handle, NoteAll, FoundSilent, Polled, Clear, Own, Lose, Released, Accepts, Batch;
    if step.Poll? {
      PollKeeps(m, step.task);
      PollOutcome(m, step.task);
    }
  }

  lemma {:induction false} HandlesKept(types: AttrTypes, m: Machine, step: Step)
    requires HandlesMatch(m) && Enabled(m, step)
    ensures HandlesMatch(Next(types, m, step))
  {
    hide Handle, NoteAll, FoundSilent, Polled, Clear, Own, Lose, Released, Accepts, Delivered, Attempt;
    if step.Poll? {
      PollKeeps(m, step.task);
      PollOutcome(m, step.task);
    }
    if !ChangesHandles(step) {
      hide Next;
      TaskStepsKeepHandles(types, m, step);
    } else if step.Start? {
      StartKeepsHandles(types, m, step);
    }
  }

  lemma {:induction false} StartKeepsHandles(types: AttrTypes, m: Machine, step: Step)
    requires HandlesMatch(m) && Enabled(m, step) && step.Start?
    ensures HandlesMatch(Next(types, m, step))
  {
    hide Cancelled;
    var after, n := Next(types, m, step), step.node;
    CancelledTasks(m.tasks, m.running, n);
    forall t | Live(after, t) ensures after.tasks[t].node in after.running && after.running[after.tasks[t].node] == t {
      if t != m.next {
        assert Live(m, t);
      }
    }
  }

  lemma CancelledTasks(tasks: map<TaskId, Task>, running: map<NodeId, TaskId>, node: NodeId)
    ensures var after := Cancelled(tasks, running, node);
            && after.Keys == tasks.Keys
            && forall t :: t in tasks ==>
                 && after[t].node == tasks[t].node && after[t].phase == tasks[t].phase
                 && after[t].cancelled == (tasks[t].cancelled || (node in running && running[node] == t))
  {
  }

  lemma {:induction false} HistoryKept(types: AttrTypes, m: Machine, step: Step)
    requires HistoryMatches(m) && Enabled(m, step)
    ensures HistoryMatches(Next(types, m, step))
  {
    hide NoteAll, FoundSilent, Polled, Disown, Cancelled, Delivered;
    if step.Poll? {
      PollKeeps(m, step.task);
      PollOutcome(m, step.task);
    }
    if step.Deliver? {
      DeliveryKeepsHistory(types, m, step.from, step.report, step.now);
    }
  }

  lemma {:induction false} DeliveryKeepsHistory(types: AttrTypes, m: Machine, from: Source, report: Report, now: Time)
    requires HistoryMatches(m)
    ensures HistoryMatches(Delivered(types, m, from, report, now))
  {
    hide NoteAll, FoundSilent, Polled, NewOnes, NodeEvents, ApplyAll, Changes, Batch;
  }

  /** A guard that survives a step still guards. */
  lemma {:induction false} StillGuarded(m: Machine, after: Machine, node: NodeId, sub: SubId)
    requires Guarded(m, node, sub)
    requires forall t :: Guards(m, t, node, sub) ==> Guards(after, t, node, sub)
    ensures Guarded(after, node, sub)
  {
    var t :| Guards(m, t, node, sub);
    assert Guards(after, t, node, sub);
  }

  /** A step that neither establishes nor drops a guard. */
  predicate KeepsGuards(step: Step) {
    !step.Establish? && !step.Poll? && !step.Destroy?
  }

  /** A report changes neither tasks and handles nor what is subscribed. */
  lemma {:induction false} HandlingKeepsEntries(types: AttrTypes, sh: Shared, from: Source, report: Report, now: Time)
    ensures Handle(types, sh, from, report, now).subs == sh.subs
  {
    hide Absorbing, NoteAll, Accepts, NewOnes, NodeEvents;
  }

  lemma {:induction false} DeliveryKeeps(types: AttrTypes, m: Machine, from: Source, report: Report, now: Time)
    ensures var after := Delivered(types, m, from, report, now);
            && after.tasks == m.tasks && after.running == m.running && after.open == m.open && after.next == m.next
            && after.owner == m.owner && after.sh.subs == m.sh.subs
  {
    hide Handle, Accepts, MoreFollows, Batch;
    HandlingKeepsEntries(types, m.sh, from, report, now);
  }

  lemma {:induction false} GuardsKept(types: AttrTypes, m: Machine, step: Step)
    requires HandlesMatch(m) && Enabled(m, step) && KeepsGuards(step)
    ensures var after := Next(types, m, step);
            && after.sh.subs == m.sh.subs
            && forall t, n, s :: Guards(m, t, n, s) ==> Guards(after, t, n, s)
  {
    hide Delivered, NoteAll, FoundSilent, Polled, Cancelled, Snapshot, ApplyAll, Changes;
    if step.Deliver? {
      DeliveryKeeps(types, m, step.from, step.report, step.now);
    }
    if step.Start? || step.Stop? {
      CancelledTasks(m.tasks, m.running, step.node);
    }
  }

  lemma {:induction false} EntriesKept(types: AttrTypes, m: Machine, step: Step)
    requires EntriesGuarded(m) && HandlesMatch(m) && Enabled(m, step)
    ensures EntriesGuarded(Next(types, m, step))
  {
    hide Next, Guards, HandlesMatch;
    var after := Next(types, m, step);
    if KeepsGuards(step) {
      GuardsKept(types, m, step);
      forall n | n in after.sh.subs ensures Guarded(after, n, after.sh.subs[n]) {
        StillGuarded(m, after, n, m.sh.subs[n]);
      }
    } else {
      forall n | n in after.sh.subs ensures Guarded(after, n, after.sh.subs[n]) {
        GuardOrNew(types, m, step, n);
        if n in m.sh.subs && m.sh.subs[n] == after.sh.subs[n] && !Guards(after, step.task, n, after.sh.subs[n]) {
          StillGuarded(m, after, n, m.sh.subs[n]);
        }
      }
    }
  }

  /** An entry there after a task established or let go is that task's own, or was there
      before under a guard that is not the one dropped. */
  lemma {:induction false} GuardOrNew(types: AttrTypes, m: Machine, step: Step, n: NodeId)
    requires HandlesMatch(m) && Enabled(m, step) && !KeepsGuards(step)
    requires n in Next(types, m, step).sh.subs
    ensures var after := Next(types, m, step);
            var s := after.sh.subs[n];
            || Guards(after, step.task, n, s)
            || (n in m.sh.subs && m.sh.subs[n] == s && forall t :: Guards(m, t, n, s) ==> Guards(after, t, n, s))
  {
    hide HandlesMatch, FoundSilent, Polled;
    if step.Poll? {
      PollKeeps(m, step.task);
      PollOutcome(m, step.task);
    }
  }

  // -------------------------------------------------------------------- runs

  /** The state after `steps`, if each was enabled in its turn. */
  function After(types: AttrTypes, steps: seq<Step>): Option<Machine> {
    if steps == [] then Some(INITIAL)
    else
      var m :- After(types, steps[..|steps| - 1]);
      var step := steps[|steps| - 1];
      if Enabled(m, step) then Some(Next(types, m, step)) else None
  }

  /** In every reachable state each subscription entry has its guard. */
  lemma {:induction false} ReachableInv(types: AttrTypes, steps: seq<Step>)
    requires After(types, steps).Some?
    ensures Inv(After(types, steps).value)
  {
    hide Next, EntriesGuarded, HandlesMatch, HistoryMatches;
    if steps == [] {
      InitialInv();
    } else {
      var m, step := After(types, steps[..|steps| - 1]).value, steps[|steps| - 1];
      ReachableInv(types, steps[..|steps| - 1]);
      HandlesKept(types, m, step);
      HistoryKept(types, m, step);
      EntriesKept(types, m, step);
    }
  }

  lemma InitialInv()
    ensures Inv(INITIAL)
  {
  }

  /** Destroying a superseded guard never removes the entry of a newer subscription. */
  lemma DestroyKeepsNewer(types: AttrTypes, m: Machine, t: TaskId, node: NodeId, s: SubId)
    requires Enabled(m, Destroy(t)) && node in m.sh.subs && m.sh.subs[node] == s
    requires !Guards(m, t, node, s)
    ensures var after := Next(types, m, Destroy(t)); node in after.sh.subs && after.sh.subs[node] == s
  {
  }

  /** Once no task of a node is left, no report of its is accepted: each is answered
      `InvalidSubscription` and changes nothing. */
  lemma {:induction false} StoppedNodeIsDisowned(types: AttrTypes, steps: seq<Step>, from: Source,
      report: Report, now: Time)
    requires After(types, steps).Some?
    requires var m := After(types, steps).value; forall t :: t in m.tasks ==> m.tasks[t].node != from.node
    ensures var m := After(types, steps).value;
            !Accepts(m.sh, from) && Next(types, m, Deliver(from, report, now)) == m
  {
    hide Handle;
    ReachableInv(types, steps);
    var m := After(types, steps).value;
    assert from.node in m.sh.subs ==> Guarded(m, from.node, m.sh.subs[from.node]);
  }
}
