/** The request loop and the executor as they run, on the state the three registry requests
    and the supervisor tasks touch; every other request is spawned detached and is not part
    of this model. */
module RequestLoop {
  import opened Wrappers
  import opened Reports
  import opened Reassembly
  import opened StackContext
  import Liveness
  import Supervision

  type TaskId = Supervision.TaskId

  datatype Request = StartSupervisor(node: NodeId) | StopSupervisor(node: NodeId) | Shutdown

  /** The machine's state without its history. */
  datatype Core = Core(
    sh: Shared, running: map<NodeId, TaskId>, tasks: map<TaskId, Supervision.Task>, open: bool, next: TaskId)

  function CoreOf(m: Supervision.Machine): Core {
    Core(m.sh, m.running, m.tasks, m.open, m.next)
  }

  function NewTask(node: NodeId): Supervision.Task {
    Supervision.Task(node, Supervision.Starting, false)
  }

  /** A machine with that state and no history. */
  function MachineOf(c: Core): Supervision.Machine {
    Supervision.Machine(c.sh, c.running, c.tasks, c.open, c.next, map[], map[], [])
  }

  predicate CanStep(c: Core, step: Supervision.Step) {
    Supervision.Enabled(MachineOf(c), step)
  }

  function Stepped(types: AttrTypes, c: Core, step: Supervision.Step): Core
    requires CanStep(c, step)
  {
    CoreOf(Supervision.Next(types, MachineOf(c), step))
  }

  function Asked(c: Core, req: Request): Core {
    match req
    case StartSupervisor(n) =>
      c.(tasks := Supervision.Cancelled(c.tasks, c.running, n)[c.next := NewTask(n)],
         running := c.running[n := c.next], next := c.next + 1)
    case StopSupervisor(n) =>
      c.(tasks := Supervision.Cancelled(c.tasks, c.running, n), running := c.running - {n}, sh := Clear(c.sh, n))
    case Shutdown =>
      c.(tasks := map t | t in c.tasks :: c.tasks[t].(cancelled := true), running := map[], open := false)
  }

  function AskedAll(c: Core, reqs: seq<Request>): Core {
    if reqs == [] then c else Asked(AskedAll(c, reqs[..|reqs| - 1]), reqs[|reqs| - 1])
  }

  class Runtime {
    const ctx: StackCtx
    var supervisors: map<NodeId, TaskId>
    var tasks: map<TaskId, Supervision.Task>
    var open: bool
    var nextTask: TaskId

    constructor (ctx: StackCtx)
      requires ctx.Valid()
      ensures this.ctx == ctx && Valid() && Contents() == Core(ctx.Contents(), map[], map[], true, 0)
    {
      this.ctx := ctx;
      supervisors, tasks, open, nextTask := map[], map[], true, 0;
    }

    /** Every handle is of a task of its node that is not cancelled, and every such task has
        its handle. */
    ghost predicate Valid()
      reads this, ctx, ctx.pending, ctx.pending.accs.Values
    {
      && ctx.Valid()
      && (forall n :: n in supervisors ==>
            supervisors[n] in tasks && tasks[supervisors[n]].node == n && !tasks[supervisors[n]].cancelled)
      && (forall t :: t in tasks ==> t < nextTask)
      && (forall t :: t in tasks && !tasks[t].cancelled ==> t in supervisors.Values)
    }

    ghost function Contents(): Core
      reads this, ctx, ctx.pending, ctx.pending.accs.Values
    {
      Core(ctx.Contents(), supervisors, tasks, open, nextTask)
    }

    /** Dropping a handle only marks the task; its future is destroyed later. */
    method DropHandle(t: TaskId)
      requires t in tasks
      modifies this`tasks
      ensures tasks == old(tasks)[t := old(tasks)[t].(cancelled := true)]
    {
      tasks := tasks[t := tasks[t].(cancelled := true)];
    }

    method Start(node: NodeId)
      requires Valid()
      modifies this`tasks, this`supervisors, this`nextTask
      ensures Valid() && Contents() == Asked(old(Contents()), StartSupervisor(node))
    {
      hide StackCtx.Valid, StackCtx.Contents;
      ghost var before, running := tasks, supervisors;
      var task := nextTask;
      tasks := tasks[task := NewTask(node)];
      nextTask := nextTask + 1;
      var displaced := if node in supervisors then Some(supervisors[node]) else None;
      supervisors := supervisors[node := task];
      if displaced.Some? {
        DropHandle(displaced.value);
      }
      assert tasks == Supervision.Cancelled(before, running, node)[task := NewTask(node)];
      HandlesStayWithTasks(before, running, node, task);
    }

    lemma {:induction false} HandlesStayWithTasks(before: map<TaskId, Supervision.Task>,
        running: map<NodeId, TaskId>, node: NodeId, task: TaskId)
      requires task !in before
      requires forall t :: t in before && !before[t].cancelled ==> t in running.Values
      ensures var after := Supervision.Cancelled(before, running, node)[task := NewTask(node)];
              forall t :: t in after && !after[t].cancelled ==> t in running[node := task].Values
    {
      var after := Supervision.Cancelled(before, running, node)[task := NewTask(node)];
      forall t | t in after && !after[t].cancelled ensures t in running[node := task].Values {
        if t == task {
          assert running[node := task][node] == t;
        } else {
          var n :| n in running && running[n] == t;
          assert running[node := task][n] == t;
        }
      }
    }

    lemma CancelledByHandle(before: map<TaskId, Supervision.Task>, running: map<NodeId, TaskId>, node: NodeId,
                            after: map<TaskId, Supervision.Task>)
      requires node in running ==> running[node] in before
      requires after == if node in running then
               before[running[node] := before[running[node]].(cancelled := true)] else before
      ensures after == Supervision.Cancelled(before, running, node) && after.Keys == before.Keys
    {
    }

    lemma {:induction false} HandlesLeft(before: map<TaskId, Supervision.Task>, running: map<NodeId, TaskId>,
        node: NodeId)
      requires forall t :: t in before && !before[t].cancelled ==> t in running.Values
      ensures var after := Supervision.Cancelled(before, running, node);
              forall t :: t in after && !after[t].cancelled ==> t in (running - {node}).Values
    {
      var after := Supervision.Cancelled(before, running, node);
      forall t | t in after && !after[t].cancelled ensures t in (running - {node}).Values {
        var n :| n in running && running[n] == t;
        assert (running - {node})[n] == t;
      }
    }

    method Stop(node: NodeId)
      requires Valid()
      modifies this`tasks, this`supervisors, ctx`lastEvent, ctx.pending
      ensures Valid() && Contents() == Asked(old(Contents()), StopSupervisor(node))
      ensures ctx.pending.accs.Values <= old(ctx.pending.accs.Values)
    {
      hide StackCtx.Valid, StackCtx.Contents, Supervision.Cancelled;
      ghost var before, running := tasks, supervisors;
      var handle := if node in supervisors then Some(supervisors[node]) else None;
      supervisors := supervisors - {node};
      if handle.Some? {
        DropHandle(handle.value);
      }
      CancelledByHandle(before, running, node, tasks);
      HandlesLeft(before, running, node);
      ctx.ClearNode(node);
    }

    lemma AllCancelled(before: map<TaskId, Supervision.Task>, after: map<TaskId, Supervision.Task>)
      requires after.Keys == before.Keys
      requires forall t :: t in after ==>
                 after[t].cancelled && (after[t] == before[t] || after[t] == before[t].(cancelled := true))
      ensures after == map t | t in before :: before[t].(cancelled := true)
    {
    }

    method ShutDown()
      requires Valid()
      modifies this`tasks, this`supervisors, this`open
      ensures Valid() && Contents() == Asked(old(Contents()), Shutdown) && !open
    {
      hide StackCtx.Valid, StackCtx.Contents;
      ghost var before := tasks;
      var drained := supervisors.Values;
      supervisors := map[];
      while drained != {}
        invariant ctx.Valid() && ctx.Contents() == old(ctx.Contents())
        invariant supervisors == map[] && nextTask == old(nextTask)
        invariant drained <= before.Keys && tasks.Keys == before.Keys
        invariant forall t :: t in tasks ==> tasks[t] == before[t] || tasks[t] == before[t].(cancelled := true)
        invariant forall t :: t in tasks && t !in drained ==> tasks[t].cancelled
      {
        var t :| t in drained;
        DropHandle(t);
        drained := drained - {t};
      }
      AllCancelled(before, tasks);
      open := false;
    }

    /** `request_loop`: requests are read in order until one shuts the loop down. */
    method Run(reqs: seq<Request>) returns (read: nat)
      requires Valid() && open
      modifies this, ctx`lastEvent, ctx.pending
      ensures Valid() && read <= |reqs|
      ensures Contents() == AskedAll(old(Contents()), reqs[..read])
      ensures forall k :: 0 <= k < read - 1 ==> !reqs[k].Shutdown?
      ensures open <==> read == |reqs| && forall k :: 0 <= k < |reqs| ==> !reqs[k].Shutdown?
    {
      hide StackCtx.Valid, StackCtx.Contents, Valid, Asked, Contents;
      read := 0;
      while read < |reqs| && open
        invariant 0 <= read <= |reqs| && Valid()
        invariant ctx.pending.accs.Values <= old(ctx.pending.accs.Values)
        invariant Contents() == AskedAll(old(Contents()), reqs[..read])
        invariant forall k :: 0 <= k < read - 1 ==> !reqs[k].Shutdown?
        invariant open <==> read == 0 || !reqs[read - 1].Shutdown?
      {
        assert reqs[..read + 1][..read] == reqs[..read];
        match reqs[read] {
          case StartSupervisor(n) => Start(n);
          case StopSupervisor(n) => Stop(n);
          case Shutdown => ShutDown();
        }
        read := read + 1;
      }
    }

    // ------------------------------------------- the supervisor tasks' own steps

    /** The head of `establish`, at the task's start and on every retry. */
    method Attempt(t: TaskId)
      requires Valid() && t in tasks && !tasks[t].cancelled
      modifies this`tasks, this`nextTask, ctx`lastEvent, ctx.pending
      ensures Valid() && ctx.pending.accs.Values <= old(ctx.pending.accs.Values)
      ensures Contents() == CoreOf(Supervision.Attempt(MachineOf(old(Contents())), t))
    {
      hide StackCtx.Valid, StackCtx.Contents, Clear;
      ctx.ClearNode(tasks[t].node);
      tasks := tasks[t := tasks[t].(phase := Supervision.Establishing(nextTask, []))];
      nextTask := nextTask + 1;
    }

    /** One chunk of the priming report. */
    method PrimeChunk(t: TaskId, chunk: Report)
      requires Valid() && CanStep(Contents(), Supervision.Prime(t, chunk))
      modifies this`tasks, ctx`lastEvent
      ensures Valid() && Contents() == Stepped(ctx.pending.types, old(Contents()), Supervision.Prime(t, chunk))
    {
      hide StackCtx.Valid, StackCtx.Contents, NoteAll, ApplyAll, Changes;
      var task := tasks[t];
      var acc := ApplyAll(task.phase.acc, Changes(ctx.pending.types, AttrsOf(chunk)));
      tasks := tasks[t := task.(phase := Supervision.Establishing(task.phase.inst, acc))];
      ctx.NotePriming(task.node, chunk.events);
    }

    /** The tail of `establish`. */
    method Establish(t: TaskId, sub: SubId, maxInterval: nat, now: Time)
      requires Valid() && CanStep(Contents(), Supervision.Establish(t, sub, maxInterval, now))
      modifies this`tasks, ctx`subs, ctx`liveness, ctx`events
      ensures Valid()
      ensures Contents() == Stepped(ctx.pending.types, old(Contents()), Supervision.Establish(t, sub, maxInterval, now))
    {
      hide StackCtx.Valid, StackCtx.Contents, Own, Supervision.Snapshot;
      var task := tasks[t];
      ctx.Established(task.node, sub, maxInterval, Supervision.Snapshot(task.phase.acc), now);
      tasks := tasks[t := task.(phase := Supervision.Watching(task.phase.inst, sub, now, maxInterval, 0))];
    }

    /** An attempt that failed. */
    method Fail(t: TaskId)
      requires Valid() && CanStep(Contents(), Supervision.Fail(t))
      modifies this`tasks, ctx`events
      ensures Valid() && Contents() == Stepped(ctx.pending.types, old(Contents()), Supervision.Fail(t))
    {
      hide StackCtx.Valid, StackCtx.Contents, Lose;
      ctx.Lost(tasks[t].node);
      tasks := tasks[t := tasks[t].(phase := Supervision.BackingOff)];
    }

    /** One look of the watchdog: at a silent subscription the guard is dropped, the loss
        announced and the next attempt begun; otherwise it looks again later. */
    method Poll(t: TaskId)
      requires Valid() && CanStep(Contents(), Supervision.Poll(t))
      modifies this`tasks, this`nextTask, ctx, ctx.pending
      ensures Valid() && ctx.pending.accs.Values <= old(ctx.pending.accs.Values)
      ensures Contents() == Stepped(ctx.pending.types, old(Contents()), Supervision.Poll(t))
    {
      hide StackCtx.Valid, PendingReports.Contents, Lose, Release, Clear, Supervision.Attempt, Liveness.Expired,
        Liveness.Deadline;
      var task := tasks[t];
      var last := if task.node in ctx.liveness then Some(ctx.liveness[task.node]) else None;
      var deadline := Liveness.Deadline(task.phase.maxInterval);
      if Liveness.Expired(last, task.phase.since, Supervision.PollTime(task.phase), deadline) {
        ctx.DropGuard(task.node, task.phase.sub);
        ctx.Lost(task.node);
        Attempt(t);
      } else {
        tasks := tasks[t := task.(phase := task.phase.(polls := task.phase.polls + 1))];
      }
    }

    /** The executor destroys the future of a dropped task, and its guard with it. */
    method Destroy(t: TaskId)
      requires Valid() && CanStep(Contents(), Supervision.Destroy(t))
      modifies this`tasks, ctx`subs, ctx`liveness
      ensures Valid() && Contents() == Stepped(ctx.pending.types, old(Contents()), Supervision.Destroy(t))
    {
      hide StackCtx.Valid, StackCtx.Contents, Release;
      var task := tasks[t];
      if task.phase.Watching? {
        ctx.DropGuard(task.node, task.phase.sub);
      }
      tasks := tasks - {t};
    }

    /** A report arrives, for whatever subscription. */
    method Deliver(from: Source, report: Report, now: Time)
      requires Valid()
      modifies ctx, ctx.pending, ctx.pending.accs.Values
      ensures Valid() && fresh(ctx.pending.accs.Values - old(ctx.pending.accs.Values))
      ensures Contents() == Stepped(ctx.pending.types, old(Contents()), Supervision.Deliver(from, report, now))
    {
      hide StackCtx.Valid, StackCtx.Contents, Handle, Supervision.Delivered;
      DeliverIsHandle(ctx.pending.types, MachineOf(Contents()), from, report, now);
      var _ := ctx.HandleReport(from, report, now);
    }

    /** Everything that runs on the stack thread is a step of the protocol. */
    method Perform(step: Supervision.Step)
      requires Valid() && CanStep(Contents(), step)
      modifies this, ctx, ctx.pending, ctx.pending.accs.Values
      ensures Valid() && fresh(ctx.pending.accs.Values - old(ctx.pending.accs.Values))
      ensures Contents() == Stepped(ctx.pending.types, old(Contents()), step)
    {
      hide StackCtx.Valid, StackCtx.Contents, Valid, Asked, Handle, Supervision.Attempt, Supervision.Polled;
      ghost var types, before := ctx.pending.types, Contents();
      match step {
        case Start(n) =>
          RequestsAreSteps(types, MachineOf(before), StartSupervisor(n));
          Start(n);
        case Stop(n) =>
          RequestsAreSteps(types, MachineOf(before), StopSupervisor(n));
          Stop(n);
        case Shutdown =>
          RequestsAreSteps(types, MachineOf(before), Request.Shutdown);
          ShutDown();
        case Begin(t) => Attempt(t);
        case Prime(t, chunk) => PrimeChunk(t, chunk);
        case Establish(t, sub, maxInterval, now) => Establish(t, sub, maxInterval, now);
        case Fail(t) => Fail(t);
        case Retry(t) => Attempt(t);
        case Poll(t) => Poll(t);
        case Destroy(t) => Destroy(t);
        case Deliver(from, report, now) =>
          Deliver(from, report, now);
      }
    }

    /** Any run of the protocol, performed step by step from the start. */
    method Execute(steps: seq<Supervision.Step>)
      requires Valid() && Contents() == CoreOf(Supervision.INITIAL)
      requires Supervision.After(ctx.pending.types, steps).Some?
      modifies this, ctx, ctx.pending, ctx.pending.accs.Values
      ensures Valid() && Contents() == CoreOf(Supervision.After(ctx.pending.types, steps).value)
    {
      hide StackCtx.Valid, StackCtx.Contents, Valid, Contents, CanStep, Stepped, CoreOf;
      ghost var types := ctx.pending.types;
      RunPrefixes(types, steps);
      for i := 0 to |steps|
        invariant Valid() && Contents() == CoreOf(Supervision.After(types, steps[..i]).value)
        invariant fresh(ctx.pending.accs.Values - old(ctx.pending.accs.Values))
      {
        assert steps[..i + 1][..i] == steps[..i];
        HistoryIsNoMatter(types, Supervision.After(types, steps[..i]).value, steps[i]);
        Perform(steps[i]);
      }
      assert steps[..|steps|] == steps;
    }
  }

  /** What the loop does on a request is the step of the protocol for it. */
  lemma {:induction false} RequestsAreSteps(types: AttrTypes, m: Supervision.Machine, req: Request)
    requires m.open
    ensures var step := match req {
                          case StartSupervisor(n) => Supervision.Start(n)
                          case StopSupervisor(n) => Supervision.Stop(n)
                          case Shutdown => Supervision.Step.Shutdown
                        };
            CoreOf(Supervision.Next(types, m, step)) == Asked(CoreOf(m), req)
  {
    hide Supervision.Cancelled, Clear;
  }

  /** The history of a machine has no part in what it can do and what it does. */
  lemma {:induction false} HistoryIsNoMatter(types: AttrTypes, m: Supervision.Machine, step: Supervision.Step)
    ensures Supervision.Enabled(m, step) <==> CanStep(CoreOf(m), step)
    ensures Supervision.Enabled(m, step) ==>
              CoreOf(Supervision.Next(types, m, step)) == Stepped(types, CoreOf(m), step)
  {
    hide Handle, NoteAll, Clear, Own, Lose, Supervision.Polled, Supervision.Delivered, Supervision.Released,
      Supervision.Cancelled, Supervision.Attempt, Supervision.Snapshot, ApplyAll, Changes;
    if Supervision.Enabled(m, step) {
      match step {
        case Begin(t) => AttemptWithoutHistory(m, t);
        case Retry(t) => AttemptWithoutHistory(m, t);
        case Poll(t) => PollWithoutHistory(m, t);
        case Deliver(from, report, now) =>
          DeliverIsHandle(types, m, from, report, now);
          DeliverIsHandle(types, MachineOf(CoreOf(m)), from, report, now);
        case _ =>
      }
    }
  }

  lemma AttemptWithoutHistory(m: Supervision.Machine, t: TaskId)
    requires t in m.tasks
    ensures CoreOf(Supervision.Attempt(m, t)) == CoreOf(Supervision.Attempt(MachineOf(CoreOf(m)), t))
  {
  }

  lemma {:induction false} PollWithoutHistory(m: Supervision.Machine, t: TaskId)
    requires t in m.tasks && m.tasks[t].phase.Watching?
    ensures CoreOf(Supervision.Polled(m, t)) == CoreOf(Supervision.Polled(MachineOf(CoreOf(m)), t))
  {
    hide Supervision.FoundSilent, Supervision.Released, Supervision.Attempt, Lose;
    var task := m.tasks[t];
    AttemptWithoutHistory(m.(sh := Lose(Supervision.Released(m.sh, task), task.node)), t);
  }

  lemma {:induction false} DeliverIsHandle(types: AttrTypes, m: Supervision.Machine, from: Source, report: Report,
      now: Time)
    ensures CoreOf(Supervision.Delivered(types, m, from, report, now)) ==
            CoreOf(m).(sh := Handle(types, m.sh, from, report, now))
  {
    hide Absorbing, NoteAll, NewOnes, NodeEvents, Supervision.Batch, MoreFollows, Accepts;
  }

  lemma {:induction false} RunPrefixes(types: AttrTypes, steps: seq<Supervision.Step>)
    requires Supervision.After(types, steps).Some?
    ensures forall i :: 0 <= i <= |steps| ==> Supervision.After(types, steps[..i]).Some?
  {
    hide Supervision.Next, Supervision.Enabled;
    if steps != [] {
      RunPrefixes(types, steps[..|steps| - 1]);
      assert forall i :: 0 <= i < |steps| ==> steps[..|steps| - 1][..i] == steps[..i];
      assert steps[..|steps|] == steps;
    } else {
      assert forall i :: 0 <= i <= 0 ==> steps[..i] == steps;
    }
  }
}
