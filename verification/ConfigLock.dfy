/** Any interleaving of tasks that update the configuration. */
module ConfigLock {
  import opened Wrappers
  import opened Config

  type TaskId = nat

  /** How far the one task inside `update_config` has come. */
  datatype Inside =
    | Entered(f: Mutation)
    | Cloned(f: Mutation, cfg: ConfigData)
    | Mutated(cfg: ConfigData)
    | Saved(cfg: ConfigData)

  /** Memory, disk, the lock with its holder, and as history the mutations in the order
      their tasks took the lock. */
  datatype State = State(
    memory: ConfigData,
    disk: Option<ConfigData>,
    lock: Option<(TaskId, Inside)>,
    order: seq<Mutation>)

  datatype Step =
    | Lock(task: TaskId, f: Mutation)
    | Clone(task: TaskId)
    | Mutate(task: TaskId)
    | Save(task: TaskId, ok: bool)
    | WriteBack(task: TaskId)

  predicate Holds(s: State, t: TaskId) {
    s.lock.Some? && s.lock.value.0 == t
  }

  predicate Enabled(s: State, step: Step) {
    match step
    case Lock(_, _) => s.lock.None?
    case Clone(t) => Holds(s, t) && s.lock.value.1.Entered?
    case Mutate(t) => Holds(s, t) && s.lock.value.1.Cloned?
    case Save(t, _) => Holds(s, t) && s.lock.value.1.Mutated?
    case WriteBack(t) => Holds(s, t) && s.lock.value.1.Saved?
  }

  function Next(s: State, step: Step): State
    requires Enabled(s, step)
  {
    match step
    case Lock(t, f) => s.(lock := Some((t, Entered(f))), order := s.order + [f])
    case Clone(t) => s.(lock := Some((t, Cloned(s.lock.value.1.f, s.memory))))
    case Mutate(t) => s.(lock := Some((t, Mutated(s.lock.value.1.f(s.lock.value.1.cfg)))))
    case Save(t, ok) =>
      var cfg := s.lock.value.1.cfg;
      s.(lock := Some((t, Saved(cfg))), disk := if ok then Some(cfg) else s.disk)
    case WriteBack(t) => s.(lock := None, memory := s.lock.value.1.cfg)
  }

  ghost function After(start: State, steps: seq<Step>): Option<State> {
    if steps == [] then Some(start)
    else
      var s :- After(start, steps[..|steps| - 1]);
      if Enabled(s, steps[|steps| - 1]) then Some(Next(s, steps[|steps| - 1])) else None
  }

  /** The mutations applied one after the other. */
  function Folded(start: ConfigData, order: seq<Mutation>): ConfigData {
    if order == [] then start else order[|order| - 1](Folded(start, order[..|order| - 1]))
  }

  /** The mutations whose result is in memory: all but that of a task still inside. */
  function Done(s: State): seq<Mutation> {
    if s.lock.Some? && s.order != [] then s.order[..|s.order| - 1] else s.order
  }

  /** The disk holds what memory held, or is about to hold, after some of the mutations. */
  ghost predicate DiskIsAPrefix(start: State, s: State) {
    || s.disk == start.disk
    || exists k :: 0 <= k <= |s.order| && s.disk == Some(Folded(start.memory, s.order[..k]))
  }

  ghost predicate Linear(start: State, s: State) {
    && s.memory == Folded(start.memory, Done(s))
    && (s.lock.Some? ==>
          && s.order != []
          && match s.lock.value.1 {
               case Entered(f) => f == s.order[|s.order| - 1]
               case Cloned(f, cfg) => f == s.order[|s.order| - 1] && cfg == s.memory
               case Mutated(cfg) => cfg == Folded(start.memory, s.order)
               case Saved(cfg) => cfg == Folded(start.memory, s.order)
             })
  }

  lemma {:induction false} LinearKept(start: State, s: State, step: Step)
    requires Linear(start, s) && Enabled(s, step)
    ensures Linear(start, Next(s, step))
  {
    if step.Lock? {
      assert (s.order + [step.f])[..|s.order|] == s.order;
    }
  }

  lemma {:induction false} DiskKept(start: State, s: State, step: Step)
    requires Linear(start, s) && DiskIsAPrefix(start, s) && Enabled(s, step)
    ensures DiskIsAPrefix(start, Next(s, step))
  {
    hide Folded;
    if step.Lock? && s.disk != start.disk {
      var k :| 0 <= k <= |s.order| && s.disk == Some(Folded(start.memory, s.order[..k]));
      assert (s.order + [step.f])[..k] == s.order[..k];
    } else if step.Save? && step.ok {
      assert s.order[..|s.order|] == s.order;
    }
  }

  /** Whatever the interleaving and whichever saves fail, memory is the mutations applied
      in the order their tasks took the lock, none lost, and the disk is what it was at the
      start or the same after some of them. */
  lemma {:induction false} UpdatesAreLinear(start: State, steps: seq<Step>)
    requires start.lock.None? && start.order == [] && After(start, steps).Some?
    ensures var s := After(start, steps).value;
            && s.memory == Folded(start.memory, Done(s)) && Linear(start, s) && DiskIsAPrefix(start, s)
  {
    hide Next, DiskIsAPrefix, Folded;
    if steps == [] {
      assert Linear(start, start) && DiskIsAPrefix(start, start) by { AtTheStart(start); }
    } else {
      hide Linear;
      var front, step := steps[..|steps| - 1], steps[|steps| - 1];
      UpdatesAreLinear(start, front);
      LinearKept(start, After(start, front).value, step);
      DiskKept(start, After(start, front).value, step);
      LinearMemory(start, After(start, steps).value);
    }
  }

  lemma LinearMemory(start: State, s: State)
    requires Linear(start, s)
    ensures s.memory == Folded(start.memory, Done(s))
  {
  }

  lemma AtTheStart(start: State)
    requires start.lock.None? && start.order == []
    ensures Linear(start, start) && DiskIsAPrefix(start, start)
  {
  }

  /** What the disk should hold: memory with the mutation of the last save that succeeded. */
  ghost function LastSave(start: State, steps: seq<Step>): Option<ConfigData>
    requires After(start, steps).Some?
  {
    if steps == [] then start.disk
    else
      var front, step := steps[..|steps| - 1], steps[|steps| - 1];
      if step.Save? && step.ok then Some(Folded(start.memory, After(start, front).value.order))
      else LastSave(start, front)
  }

  /** The disk is what the last save that succeeded was made of: all mutations up to its own. */
  lemma {:induction false} DiskIsTheLastSave(start: State, steps: seq<Step>)
    requires start.lock.None? && start.order == [] && After(start, steps).Some?
    ensures After(start, steps).value.disk == LastSave(start, steps)
  {
    hide Folded, DiskIsAPrefix;
    if steps != [] {
      var front := steps[..|steps| - 1];
      DiskIsTheLastSave(start, front);
      UpdatesAreLinear(start, front);
    }
  }
}
