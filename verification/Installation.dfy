/**
 The manager service together with its task manager: whole runs of requests, spawned tasks and
 stage changes. Calls to the progress service by the last two installation tasks always succeed.
 */
module Installation {
  import opened Events
  import opened TaskManagement
  import opened Scheduler
  import opened SchedulerInvariant
  import opened SchedulerTheorems
  import opened Actions
  import opened ConfigurationOrder
  import opened ManagerService

  datatype System = System(front: Front, sched: State, staged: set<TaskId>)

  const START := System(Front(Configuring, Unset, true, NO_CONFIG, [], None, []), INIT, {})

  datatype Request =
    | SetConfig(config: ConfigRequest)
    | Install(issues: seq<string>, progresses: seq<Progress>)
    | Spawn
    | SetFinalStage(id: TaskId)
    | TaskStep(step: Label)

  predicate WellFormed(y: System) {
    |y.sched.phases| == |y.sched.tasks|
  }

  /** The last spawned task has been handed over, so the handler can go on. */
  predicate HandedOver(y: System) {
    forall p | p in y.sched.phases :: !p.Allocated? && !p.Stored?
  }

  /** The stage that the work of a running task sets, if it is one of the last two installation tasks. */
  function FinalStage(y: System, id: TaskId): Option<Stage> {
    if y.front.install.None? || id >= |y.sched.phases| || !y.sched.phases[id].Running? then None
    else if id == y.front.install.value + 4 then Some(Stage.Finished)
    else if id == FinalizeId(y.front.install.value) && y.sched.phases[id].failedDeps != [] then Some(Failed)
    else None
  }

  predicate Possible(y: System, r: Request)
    requires WellFormed(y)
  {
    match r
    case SetConfig(_) => y.front.queue == [] && HandedOver(y)
    case Install(_, _) => y.front.queue == [] && HandedOver(y)
    case Spawn => y.front.queue != [] && HandedOver(y) && WriteFree(y.sched)
    case SetFinalStage(id) => FinalStage(y, id).Some? && id !in y.staged
    case TaskStep(l) =>
      && Enabled(y.sched, l) && !l.Allocate?
      && (l.Emit? ==> !l.event.StageChanged?)
      && (l.Finish? ==> FinalStage(y, l.id).None? || l.id in y.staged)
  }

  /** The step of the task manager that a request consists of, if any. */
  function SchedulerStep(y: System, r: Request): (l: Option<Label>)
    requires WellFormed(y) && Possible(y, r)
    ensures l.Some? ==> Enabled(y.sched, l.value)
  {
    match r
    case SetConfig(_) => None
    case Install(issues, progresses) =>
      if InstallOutcome(y.front, issues, progresses).Accepted? then Some(Emit(StageChanged(Installing))) else None
    case Spawn => Some(Allocate(y.front.queue[0]))
    case SetFinalStage(id) => Some(Emit(StageChanged(FinalStage(y, id).value)))
    case TaskStep(l) => Some(l)
  }

  function Perform(work: Work, y: System, r: Request): (y': System)
    requires WellFormed(y) && Possible(y, r)
    ensures WellFormed(y')
  {
    var step := SchedulerStep(y, r);
    var sched := if step.None? then y.sched else Apply(work, y.sched, step.value);
    match r
    case SetConfig(c) => System(AfterSetConfig(y.front, |y.sched.tasks|, c), sched, y.staged)
    case Install(issues, progresses) =>
      System(AfterInstall(y.front, |y.sched.tasks|, issues, progresses), sched, y.staged)
    case Spawn => System(y.front.(queue := y.front.queue[1..]), sched, y.staged)
    case SetFinalStage(id) =>
      System(y.front.(stage := FinalStage(y, id).value), sched, y.staged + {id})
    case TaskStep(_) => System(y.front, sched, y.staged)
  }

  predicate ValidRun(work: Work, y: System, run: seq<Request>)
    requires WellFormed(y)
    decreases run
  {
    run == [] || (Possible(y, run[0]) && ValidRun(work, Perform(work, y, run[0]), run[1..]))
  }

  function ExecRun(work: Work, y: System, run: seq<Request>): (y': System)
    requires WellFormed(y) && ValidRun(work, y, run)
    ensures WellFormed(y')
    decreases run
  {
    if run == [] then y else ExecRun(work, Perform(work, y, run[0]), run[1..])
  }

  /*** A run of the service is a run of the task manager ***/

  function Trace(work: Work, y: System, run: seq<Request>): seq<Label>
    requires WellFormed(y) && ValidRun(work, y, run)
    decreases run
  {
    if run == [] then []
    else
      var rest := Trace(work, Perform(work, y, run[0]), run[1..]);
      var step := SchedulerStep(y, run[0]);
      if step.None? then rest else [step.value] + rest
  }

  lemma {:induction false} TraceIsRun(work: Work, y: System, run: seq<Request>)
    requires WellFormed(y) && ValidRun(work, y, run)
    ensures Valid(work, y.sched, Trace(work, y, run))
    ensures Exec(work, y.sched, Trace(work, y, run)) == ExecRun(work, y, run).sched
    decreases run
  {
    if run != [] {
      TraceIsRun(work, Perform(work, y, run[0]), run[1..]);
      assert Trace(work, y, run) != [] ==>
          Trace(work, y, run)[1..] == Trace(work, Perform(work, y, run[0]), run[1..])
          || Trace(work, y, run) == Trace(work, Perform(work, y, run[0]), run[1..]);
    }
  }

  /*** The invariant ***/

  /** All tasks requested so far, spawned or not. */
  function AllTasks(y: System): seq<Task> {
    y.sched.tasks + y.front.queue
  }

  ghost predicate GraphsOk(y: System) {
    var all := AllTasks(y);
    && Ordered(all)
    && (forall c | c in y.front.configs :: Placed(all, c.0, ConfigGraph(c.0, c.1)))
    && (y.front.install.None? <==> y.front.stage == Configuring)
    && (y.front.install.Some? ==>
          && Placed(all, y.front.install.value, InstallGraph(y.front.install.value))
          && |all| == y.front.install.value + 6)
  }

  predicate Ran(y: System, id: TaskId) {
    id < |y.sched.phases| && (y.sched.phases[id].Running? || (y.sched.phases[id].Done? && y.sched.phases[id].ran))
  }

  predicate EndedRun(y: System, id: TaskId) {
    id < |y.sched.phases| && y.sched.phases[id].Done? && y.sched.phases[id].ran
  }

  ghost predicate StageOk(y: System) {
    match y.front.install
    case None => y.staged == {}
    case Some(first) =>
      && (forall id | id in y.staged :: id == first + 4 || id == FinalizeId(first))
      && (forall id | id in y.staged :: Ran(y, id))
      && (FinalizeId(first) in y.staged ==> y.sched.phases[FinalizeId(first)].failedDeps != [])
      && (EndedRun(y, first + 4) ==> first + 4 in y.staged)
      && (EndedRun(y, FinalizeId(first)) && y.sched.phases[FinalizeId(first)].failedDeps != [] ==>
            FinalizeId(first) in y.staged)
      && y.front.stage == (if FinalizeId(first) in y.staged then Failed
                           else if first + 4 in y.staged then Stage.Finished else Installing)
  }

  ghost predicate SystemInv(work: Work, y: System) {
    Inv(work, y.sched) && GraphsOk(y) && StageOk(y)
  }

  lemma AppendKeepsPlaced(all: seq<Task>, more: seq<Task>, first: TaskId, graph: seq<Task>)
    requires Placed(all, first, graph)
    ensures Placed(all + more, first, graph)
  {
    forall k | 0 <= k < |graph| ensures (all + more)[first + k] == graph[k] {
      assert all[first + k] == graph[k];
    }
  }

  /** The dependencies of each task of a graph come before it. */
  predicate OrderedFrom(first: TaskId, graph: seq<Task>) {
    forall k: nat, d | k < |graph| && d in graph[k].deps :: d < first + k
  }

  lemma OrderedJoined(first: TaskId, a: seq<Task>, b: seq<Task>)
    requires OrderedFrom(first, a) && OrderedFrom(first + |a|, b)
    ensures OrderedFrom(first, a + b)
  {
    forall k: nat, d | k < |a + b| && d in (a + b)[k].deps ensures d < first + k {
      assert (a + b)[k] == if k < |a| then a[k] else b[k - |a|];
    }
  }

  lemma ConfigIsOrdered(first: TaskId, shape: Shape)
    ensures OrderedFrom(first, ConfigGraph(first, shape))
  {
    var c, d := CommonTasks(first), DeviceTasks(first, shape);
    assert OrderedFrom(first, c) && OrderedFrom(first + |c|, d);
    OrderedJoined(first, c, d);
    if shape.product {
      assert OrderedFrom(first + |c + d|, ProductTasks(first, shape));
      OrderedJoined(first, c + d, ProductTasks(first, shape));
    }
  }

  lemma InstallIsOrdered(first: TaskId)
    ensures OrderedFrom(first, InstallGraph(first))
  {
  }

  lemma AppendGraph(all: seq<Task>, graph: seq<Task>)
    requires Ordered(all)
    requires OrderedFrom(|all|, graph)
    ensures Ordered(all + graph) && Placed(all + graph, |all|, graph)
  {
    forall id: nat, d | 0 <= id < |all + graph| && d in (all + graph)[id].deps ensures d < id {
      if id >= |all| {
        assert (all + graph)[id] == graph[id - |all|];
      }
    }
  }

  /** A graph that is accepted goes after all earlier tasks. */
  lemma GraphAdded(y: System, graph: seq<Task>)
    requires GraphsOk(y) && y.front.queue == []
    requires OrderedFrom(|y.sched.tasks|, graph)
    ensures Ordered(y.sched.tasks + graph) && Placed(y.sched.tasks + graph, |y.sched.tasks|, graph)
    ensures forall c | c in y.front.configs :: Placed(y.sched.tasks + graph, c.0, ConfigGraph(c.0, c.1))
  {
    assert AllTasks(y) == y.sched.tasks;
    AppendGraph(y.sched.tasks, graph);
    forall c | c in y.front.configs ensures Placed(y.sched.tasks + graph, c.0, ConfigGraph(c.0, c.1)) {
      AppendKeepsPlaced(y.sched.tasks, graph, c.0, ConfigGraph(c.0, c.1));
    }
  }

  lemma SetConfigGraphs(y: System, c: ConfigRequest)
    requires GraphsOk(y) && WellFormed(y) && y.front.queue == []
    ensures GraphsOk(y.(front := AfterSetConfig(y.front, |y.sched.tasks|, c)))
  {
    var first := |y.sched.tasks|;
    var y' := y.(front := AfterSetConfig(y.front, first, c));
    if SetConfigOutcome(y.front, c).Accepted? {
      ConfigIsOrdered(first, ShapeOf(c));
      GraphAdded(y, ConfigGraph(first, ShapeOf(c)));
      assert AllTasks(y') == y.sched.tasks + ConfigGraph(first, ShapeOf(c));
    } else {
      assert AllTasks(y') == AllTasks(y);
    }
  }

  lemma InstallGraphs(y: System, issues: seq<string>, progresses: seq<Progress>)
    requires GraphsOk(y) && WellFormed(y) && y.front.queue == []
    ensures GraphsOk(y.(front := AfterInstall(y.front, |y.sched.tasks|, issues, progresses)))
  {
    var first := |y.sched.tasks|;
    if InstallOutcome(y.front, issues, progresses).Accepted? {
      InstallIsOrdered(first);
      GraphAdded(y, InstallGraph(first));
    }
  }

  lemma SameGraphs(y: System, y': System)
    requires GraphsOk(y) && AllTasks(y') == AllTasks(y)
    requires y'.front.configs == y.front.configs && y'.front.install == y.front.install
    requires y'.front.stage == Configuring <==> y.front.stage == Configuring
    ensures GraphsOk(y')
  {
  }

  lemma StepGraphs(work: Work, y: System, r: Request)
    requires SystemInv(work, y) && Possible(y, r)
    ensures GraphsOk(Perform(work, y, r))
  {
    var y' := Perform(work, y, r);
    match r
    case SetConfig(c) =>
      SetConfigGraphs(y, c);
      SameGraphs(y.(front := y'.front), y');
    case Install(issues, progresses) =>
      InstallGraphs(y, issues, progresses);
      SameGraphs(y.(front := y'.front), y');
    case _ =>
      assert AllTasks(y') == AllTasks(y);
      SameGraphs(y, y');
  }

  lemma InstallTask(y: System, work: Work, k: nat)
    requires SystemInv(work, y) && y.front.install.Some? && k < 6
    requires y.front.install.value + k < |y.sched.tasks|
    ensures y.sched.tasks[y.front.install.value + k] == InstallGraph(y.front.install.value)[k]
    ensures TaskOk(work, y.sched, y.front.install.value + k)
  {
    assert AllTasks(y)[y.front.install.value + k] == InstallGraph(y.front.install.value)[k];
  }

  /** A decided task has seen all its dependencies end, and was told which of them failed. */
  lemma DecidedDeps(work: Work, s: State, id: TaskId)
    requires Inv(work, s) && id < |s.tasks| && Decided(s.phases[id])
    ensures AllDone(s.shared, s.tasks[id].deps)
    ensures s.phases[id].failedDeps == FailedAmong(s.shared.failed, s.tasks[id].deps)
  {
    assert TaskOk(work, s, id);
  }

  lemma EndedIsDone(work: Work, s: State, id: TaskId)
    requires Inv(work, s) && IsDone(s, id)
    ensures id < |s.phases| && s.phases[id].Done?
  {
    assert id < |s.tasks| && TaskOk(work, s, id);
  }

  lemma FinalizeWasLast(work: Work, y: System)
    requires SystemInv(work, y) && y.front.install.Some?
    requires var z := FinalizeId(y.front.install.value); z < |y.sched.phases| && Decided(y.sched.phases[z])
    ensures forall c | c in Critical(y.front.install.value) :: c < |y.sched.phases| && y.sched.phases[c].Done?
    ensures y.sched.phases[FinalizeId(y.front.install.value)].failedDeps
            == FailedAmong(y.sched.shared.failed, Critical(y.front.install.value))
  {
    var z := FinalizeId(y.front.install.value);
    assert y.sched.tasks[z].deps == Critical(y.front.install.value) by {
      InstallTask(y, work, 5);
    }
    DecidedDeps(work, y.sched, z);
    forall c | c in Critical(y.front.install.value) ensures c < |y.sched.phases| && y.sched.phases[c].Done? {
      EndedIsDone(work, y.sched, c);
    }
  }

  lemma SpawnKeepsStage(work: Work, y: System)
    requires SystemInv(work, y) && Possible(y, Spawn)
    ensures StageOk(Perform(work, y, Spawn))
  {
    var y' := Perform(work, y, Spawn);
    assert y'.sched.phases == y.sched.phases + [Allocated];
  }

  lemma StagedStays(y: System, work: Work, l: Label, id: TaskId)
    requires WellFormed(y) && Possible(y, TaskStep(l)) && !l.Emit? && Ran(y, id)
    ensures var y' := Perform(work, y, TaskStep(l));
            Ran(y', id) && y'.sched.phases[id].failedDeps == y.sched.phases[id].failedDeps
  {
  }

  lemma EndedIsStaged(y: System, work: Work, l: Label, id: TaskId)
    requires SystemInv(work, y) && Possible(y, TaskStep(l)) && y.front.install.Some? && !l.Emit?
    requires id == y.front.install.value + 4 || id == FinalizeId(y.front.install.value)
    ensures var y' := Perform(work, y, TaskStep(l));
            EndedRun(y', id) && (id == y.front.install.value + 4 || y'.sched.phases[id].failedDeps != [])
            ==> id in y.staged
  {
  }

  lemma FinalStageKeepsStage(work: Work, y: System, id: TaskId)
    requires SystemInv(work, y) && Possible(y, SetFinalStage(id))
    ensures StageOk(Perform(work, y, SetFinalStage(id)))
  {
    var first := y.front.install.value;
    var y' := Perform(work, y, SetFinalStage(id));
    assert y'.sched.phases == y.sched.phases;
    forall j | j in y'.staged ensures Ran(y', j) {
      assert j in y.staged ==> Ran(y, j);
    }
    if id == first + 4 && FinalizeId(first) in y.staged {
      assert Ran(y, FinalizeId(first)) && first + 4 in Critical(first);
      FinalizeWasLast(work, y);
      assert false;
    }
  }

  lemma RequestKeepsStage(work: Work, y: System, r: Request)
    requires SystemInv(work, y) && Possible(y, r) && (r.SetConfig? || r.Install?)
    ensures StageOk(Perform(work, y, r))
  {
    var y' := Perform(work, y, r);
    assert y'.sched.phases == y.sched.phases;
    assert forall j | j in y.staged :: Ran(y, j) ==> Ran(y', j);
    if y'.front != y.front && r.Install? {
      assert y'.front.install == Some(|y.sched.tasks|);
    }
  }

  lemma TaskKeepsStage(work: Work, y: System, l: Label)
    requires SystemInv(work, y) && Possible(y, TaskStep(l))
    ensures StageOk(Perform(work, y, TaskStep(l)))
  {
    var y' := Perform(work, y, TaskStep(l));
    if y.front.install.Some? {
      if l.Emit? {
        assert y'.sched.phases == y.sched.phases;
        assert forall j | j in y.staged :: Ran(y, j) ==> Ran(y', j);
      } else {
        forall id | id in y.staged
          ensures Ran(y', id) && y'.sched.phases[id].failedDeps == y.sched.phases[id].failedDeps
        {
          StagedStays(y, work, l, id);
        }
        EndedIsStaged(y, work, l, y.front.install.value + 4);
        EndedIsStaged(y, work, l, FinalizeId(y.front.install.value));
      }
    }
  }

  lemma StepStage(work: Work, y: System, r: Request)
    requires SystemInv(work, y) && Possible(y, r)
    ensures StageOk(Perform(work, y, r))
  {
    match r
    case SetConfig(_) => RequestKeepsStage(work, y, r);
    case Install(_, _) => RequestKeepsStage(work, y, r);
    case Spawn => SpawnKeepsStage(work, y);
    case SetFinalStage(id) => FinalStageKeepsStage(work, y, id);
    case TaskStep(l) => TaskKeepsStage(work, y, l);
  }

  lemma StepSystem(work: Work, y: System, r: Request)
    requires SystemInv(work, y) && Possible(y, r)
    ensures SystemInv(work, Perform(work, y, r))
  {
    if SchedulerStep(y, r).Some? {
      StepInv(work, y.sched, SchedulerStep(y, r).value);
    }
    StepGraphs(work, y, r);
    StepStage(work, y, r);
  }

  lemma {:induction false} RunSystem(work: Work, y: System, run: seq<Request>)
    requires SystemInv(work, y) && ValidRun(work, y, run)
    ensures SystemInv(work, ExecRun(work, y, run))
    decreases run
  {
    if run != [] {
      StepSystem(work, y, run[0]);
      RunSystem(work, Perform(work, y, run[0]), run[1..]);
    }
  }
}
