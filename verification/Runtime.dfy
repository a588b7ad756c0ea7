/**
 The task manager object driven by the life cycles of its tasks. `Step` performs one step of one
 task by calling the manager's critical sections, and does what the state machine says.
 */
module TaskRuntime {
  import opened Events
  import opened TaskManagement
  import opened Scheduler

  class Runtime {
    const manager: TaskManager
    var tasks: seq<Task>
    var phases: seq<Phase>

    ghost predicate Consistent()
      reads this, manager
    {
      |tasks| == |phases| == manager.nextId
    }

    ghost function View(): State
      reads this, manager
    {
      State(tasks, phases, manager.View())
    }

    constructor ()
      ensures fresh(manager) && Consistent() && View() == INIT
    {
      manager := new TaskManager();
      tasks, phases := [], [];
    }

    /** What the source does between two points at which a task can be interrupted. */
    method Step(work: Work, l: Label)
      requires Consistent() && Enabled(View(), l)
      modifies this, manager
      ensures Consistent() && View() == Apply(work, old(View()), l)
    {
      match l
      case Allocate(task) =>
        var _ := manager.NextId();
        tasks, phases := tasks + [task], phases + [Allocated];
      case Emit(e) =>
        manager.SendEvent(e);
      case StoreTask(id) =>
        manager.StoreMetadata(Info(id, tasks[id]));
        phases := phases[id := Stored];
      case Announce(id) =>
        manager.SendEvent(TaskAdded(Info(id, tasks[id])));
        phases := phases[id := Checking];
      case Check(id) =>
        var done := manager.CheckDependencies(tasks[id].deps);
        phases := phases[id := if done.Some? then Resolved(done.value) else Undecided];
      case Park(id) =>
        phases := phases[id := Parked(manager.notify)];
      case Wake(id) =>
        phases := phases[id := Checking];
      case Cancel(id) =>
        manager.Cancel(Info(id, tasks[id]));
        phases := phases[id := Done(phases[id].failedDeps, false, false)];
      case Start(id) =>
        manager.SendEvent(TaskStarted(Info(id, tasks[id])));
        phases := phases[id := Running(phases[id].failedDeps)];
      case Finish(id) =>
        var ok := work(id, phases[id].failedDeps);
        manager.Finish(Info(id, tasks[id]), ok);
        phases := phases[id := Done(phases[id].failedDeps, true, ok)];
    }

    method RunAll(work: Work, run: seq<Label>)
      requires Consistent() && Valid(work, View(), run)
      modifies this, manager
      ensures Consistent() && View() == Exec(work, old(View()), run)
    {
      var rest := run;
      while rest != []
        invariant Consistent() && Valid(work, View(), rest)
        invariant Exec(work, View(), rest) == Exec(work, old(View()), run)
      {
        Step(work, rest[0]);
        rest := rest[1..];
      }
    }
  }
}
