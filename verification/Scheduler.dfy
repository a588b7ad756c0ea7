/**
 The tasks of the manager as a state machine. Every task is its own thread of control; a run is an
 arbitrary interleaving of atomic steps, one for each critical section, event or wake-up of
 rust/agama-manager/src/task_manager.rs.
 */
module Scheduler {
  import opened Events
  import opened TaskManagement

  /** What a caller hands to the builder before `run` or `run_always`. */
  datatype Task = Task(name: string, scope: Scope, description: string, deps: seq<TaskId>, runAlways: bool)

  /**
   Where a task is. `Undecided` tasks hold the read lock: they have seen an unfinished dependency
   and have not created their `Notified` future yet.
   */
  datatype Phase =
    | Allocated
    | Stored
    | Checking
    | Undecided
    | Parked(epoch: nat)
    | Resolved(failedDeps: seq<TaskId>)
    | Running(failedDeps: seq<TaskId>)
    | Done(failedDeps: seq<TaskId>, ran: bool, ok: bool)

  datatype State = State(tasks: seq<Task>, phases: seq<Phase>, shared: Shared)

  const INIT := State([], [], EMPTY_SHARED)

  /** The result of a task's work, given the failed dependencies it is told about. */
  type Work = (TaskId, seq<TaskId>) -> bool

  datatype Label =
    | Allocate(task: Task)
    | StoreTask(id: TaskId)
    | Announce(id: TaskId)
    | Check(id: TaskId)
    | Park(id: TaskId)
    | Wake(id: TaskId)
    | Cancel(id: TaskId)
    | Start(id: TaskId)
    | Finish(id: TaskId)
    | Emit(event: Event)

  function Info(id: TaskId, t: Task): TaskInfo {
    TaskInfo(id, t.name, t.scope, t.description)
  }

  function InfoOf(s: State, id: TaskId): TaskInfo
    requires id < |s.tasks|
  {
    Info(id, s.tasks[id])
  }

  /** A write lock can be taken: no task holds the read lock. */
  predicate WriteFree(s: State) {
    forall p | p in s.phases :: !p.Undecided?
  }

  predicate Cancelled(t: Task, failedDeps: seq<TaskId>) {
    !t.runAlways && failedDeps != []
  }

  predicate Enabled(s: State, l: Label)
    requires |s.phases| == |s.tasks|
  {
    match l
    case Allocate(_) => WriteFree(s)
    case Emit(e) => !IsTaskEvent(e)
    case StoreTask(id) => id < |s.tasks| && s.phases[id].Allocated? && WriteFree(s)
    case Announce(id) => id < |s.tasks| && s.phases[id].Stored?
    case Check(id) => id < |s.tasks| && s.phases[id].Checking?
    case Park(id) => id < |s.tasks| && s.phases[id].Undecided?
    case Wake(id) => id < |s.tasks| && s.phases[id].Parked? && s.phases[id].epoch < s.shared.epoch
    case Cancel(id) => id < |s.tasks| && s.phases[id].Resolved? && WriteFree(s)
                       && Cancelled(s.tasks[id], s.phases[id].failedDeps)
    case Start(id) => id < |s.tasks| && s.phases[id].Resolved?
                      && !Cancelled(s.tasks[id], s.phases[id].failedDeps)
    case Finish(id) => id < |s.tasks| && s.phases[id].Running? && WriteFree(s)
  }

  function Move(s: State, id: TaskId, p: Phase, shared: Shared): State
    requires id < |s.phases|
  {
    State(s.tasks, s.phases[id := p], shared)
  }

  function Apply(work: Work, s: State, l: Label): (s': State)
    requires |s.phases| == |s.tasks| && Enabled(s, l)
    ensures |s'.phases| == |s'.tasks|
  {
    match l
    case Allocate(task) => State(s.tasks + [task], s.phases + [Allocated], TakeId(s.shared))
    case Emit(e) => s.(shared := Send(s.shared, e))
    case StoreTask(id) => Move(s, id, Stored, Store(s.shared, InfoOf(s, id)))
    case Announce(id) => Move(s, id, Checking, Send(s.shared, TaskAdded(InfoOf(s, id))))
    case Check(id) =>
      var deps := s.tasks[id].deps;
      Move(s, id,
           if AllDone(s.shared, deps) then Resolved(FailedAmong(s.shared.failed, deps)) else Undecided,
           s.shared)
    case Park(id) => Move(s, id, Parked(s.shared.epoch), s.shared)
    case Wake(id) => Move(s, id, Checking, s.shared)
    case Cancel(id) =>
      Move(s, id, Done(s.phases[id].failedDeps, false, false), Complete(s.shared, InfoOf(s, id), false))
    case Start(id) =>
      Move(s, id, Running(s.phases[id].failedDeps), Send(s.shared, TaskStarted(InfoOf(s, id))))
    case Finish(id) =>
      var ok := work(id, s.phases[id].failedDeps);
      Move(s, id, Done(s.phases[id].failedDeps, true, ok), Complete(s.shared, InfoOf(s, id), ok))
  }

  predicate Valid(work: Work, s: State, run: seq<Label>)
    requires |s.phases| == |s.tasks|
    decreases run
  {
    run == [] || (Enabled(s, run[0]) && Valid(work, Apply(work, s, run[0]), run[1..]))
  }

  /** The state at the end of a run. */
  function Exec(work: Work, s: State, run: seq<Label>): (s': State)
    requires |s.phases| == |s.tasks| && Valid(work, s, run)
    ensures |s'.phases| == |s'.tasks|
    decreases run
  {
    if run == [] then s else Exec(work, Apply(work, s, run[0]), run[1..])
  }

  /** Steps the manager takes by itself; the others are requests and foreign events. */
  predicate Internal(l: Label) {
    !l.Allocate? && !l.Emit?
  }

  ghost predicate Quiescent(s: State)
    requires |s.phases| == |s.tasks|
  {
    forall l | Internal(l) :: !Enabled(s, l)
  }

  /*** Independent notions the proofs compare the machine with ***/

  /** Unrolling the dependencies of `id` at most `fuel` deep reaches only existing tasks and ends. */
  predicate Resolvable(tasks: seq<Task>, id: TaskId, fuel: nat)
    decreases fuel
  {
    fuel > 0 && id < |tasks| && forall d | d in tasks[id].deps :: Resolvable(tasks, d, fuel - 1)
  }

  /** The outcome of a task by recursion over its dependencies, with no notion of time. */
  function Succeeds(tasks: seq<Task>, work: Work, id: TaskId, fuel: nat): bool
    requires Resolvable(tasks, id, fuel)
    decreases fuel, 0
  {
    var failedDeps := Failing(tasks, work, tasks[id].deps, fuel - 1);
    !Cancelled(tasks[id], failedDeps) && work(id, failedDeps)
  }

  function Failing(tasks: seq<Task>, work: Work, ids: seq<TaskId>, fuel: nat): seq<TaskId>
    requires forall d | d in ids :: Resolvable(tasks, d, fuel)
    decreases fuel, 1 + |ids|
  {
    if ids == [] then []
    else (if Succeeds(tasks, work, ids[0], fuel) then [] else [ids[0]])
         + Failing(tasks, work, ids[1..], fuel)
  }

  datatype Kind = WasAdded | WasStarted | WasFinished

  /** The kinds of the events about one task, oldest first. */
  function Kinds(log: seq<Event>, id: TaskId): seq<Kind> {
    if log == [] then []
    else
      var e := log[|log| - 1];
      var before := Kinds(log[..|log| - 1], id);
      if !IsTaskEvent(e) || e.task.id != id then before
      else before + [if e.TaskAdded? then WasAdded else if e.TaskStarted? then WasStarted else WasFinished]
  }
}
