/**
 What the events of an installation tell, by the names and scopes that clients see
 (rust/agama-manager/src/actions.rs): which task follows which, and which ones failed.
 */
module InstallationNames {
  import opened Events
  import opened TaskManagement
  import opened Scheduler
  import opened SchedulerInvariant
  import opened SchedulerTheorems
  import opened Actions
  import opened ConfigurationOrder
  import opened ManagerService
  import opened Installation
  import opened InstallationTheorems

  /*** Descriptions of tasks ***/

  predicate Describes(t: TaskInfo, id: TaskId, task: Task) {
    t.id == id && t.name == task.name && t.scope == task.scope && t.description == task.description
  }

  /** Every event about a task, and every stored description, tells what the task was created with. */
  lemma EventsDescribe(work: Work, run: seq<Label>, i: nat)
    requires Valid(work, INIT, run)
    requires var log := Exec(work, INIT, run).shared.log; i < |log| && IsTaskEvent(log[i])
    ensures var s := Exec(work, INIT, run);
            var t := s.shared.log[i].task;
            t.id < |s.tasks| && Describes(t, t.id, s.tasks[t.id])
  {
    ReachableInv(work, run);
    var s := Exec(work, INIT, run);
    assert EventOk(s.tasks, s.shared.log, i);
  }

  lemma MetadataDescribes(work: Work, run: seq<Label>, id: TaskId)
    requires Valid(work, INIT, run) && id in Exec(work, INIT, run).shared.metadata
    ensures var s := Exec(work, INIT, run);
            id < |s.tasks| && Describes(s.shared.metadata[id], id, s.tasks[id])
  {
    ReachableInv(work, run);
    var s := Exec(work, INIT, run);
    assert id < |s.tasks| && TaskOk(work, s, id);
  }

  /** The tasks that a run creates, in order. */
  function Created(run: seq<Label>): seq<Task> {
    if run == [] then []
    else (if run[0].Allocate? then [run[0].task] else []) + Created(run[1..])
  }

  lemma StepCreates(work: Work, s: State, l: Label)
    requires |s.phases| == |s.tasks| && Enabled(s, l)
    ensures Apply(work, s, l).tasks == s.tasks + if l.Allocate? then [l.task] else []
  {
  }

  lemma {:induction false} TasksAreCreated(work: Work, s: State, run: seq<Label>)
    requires |s.phases| == |s.tasks| && Valid(work, s, run)
    ensures Exec(work, s, run).tasks == s.tasks + Created(run)
    decreases run
  {
    if run != [] {
      var s', one, rest := Apply(work, s, run[0]), if run[0].Allocate? then [run[0].task] else [], Created(run[1..]);
      TasksAreCreated(work, s', run[1..]);
      assert s'.tasks == s.tasks + one by {
        StepCreates(work, s, run[0]);
      }
      assert (s.tasks + one) + rest == s.tasks + (one + rest);
    }
  }

  /*** The installation ***/

  /** The critical tasks as clients see them. */
  const CHAIN: seq<(string, Scope)> := [
    ("storage_install", Storage),
    ("post_partitioning_scripts", Files),
    ("software_install", Software),
    ("configure", Manager),
    ("finish_progress", Manager)]

  predicate OfInstall(y: System, t: TaskInfo) {
    y.front.install.Some? && y.front.install.value <= t.id < y.front.install.value + 6
  }

  predicate Is(t: TaskInfo, named: (string, Scope)) {
    t.name == named.0 && t.scope == named.1
  }

  lemma GraphNames(first: TaskId, k: nat)
    requires k < 6
    ensures k < 5 ==> InstallGraph(first)[k].name == CHAIN[k].0 && InstallGraph(first)[k].scope == CHAIN[k].1
    ensures k == 5 ==> InstallGraph(first)[k].name == "finalize" && InstallGraph(first)[k].scope == Manager
  {
  }

  lemma NamesDiffer(k: nat, q: nat)
    requires k < 5 && q < 5
    ensures CHAIN[k].0 != "finalize" && (CHAIN[k].0 == CHAIN[q].0 <==> k == q)
  {
    assert |CHAIN[0].0| == 15 && |CHAIN[1].0| == 25 && |CHAIN[2].0| == 16 && |CHAIN[3].0| == 9 && |CHAIN[4].0| == 15;
    assert CHAIN[0].0[0] == 's' && CHAIN[4].0[0] == 'f' && |"finalize"| == 8;
  }

  /** An event of the installation names one of the six tasks, each at its place in the chain. */
  lemma InstallEvents(work: Work, y: System, i: nat)
    requires SystemInv(work, y) && i < |y.sched.shared.log| && IsTaskEvent(y.sched.shared.log[i])
    requires OfInstall(y, y.sched.shared.log[i].task)
    ensures var t := y.sched.shared.log[i].task;
            var k := t.id - y.front.install.value;
            if k < 5 then Is(t, CHAIN[k]) else Is(t, ("finalize", Manager))
  {
    var k := y.sched.shared.log[i].task.id - y.front.install.value;
    assert EventOk(y.sched.tasks, y.sched.shared.log, i);
    InstallTask(y, work, k);
    GraphNames(y.front.install.value, k);
  }

  lemma {:induction false} ChainNeeds(work: Work, y: System, p: nat, q: nat)
    requires SystemInv(work, y) && y.front.install.Some? && p < q < 5
    requires y.front.install.value + q < |y.sched.tasks|
    ensures Needs(y.sched.tasks, y.front.install.value + q, y.front.install.value + p, q - p)
  {
    var first := y.front.install.value;
    InstallTask(y, work, q);
    assert y.sched.tasks[first + q].deps == [first + (q - 1)];
    if p < q - 1 {
      ChainNeeds(work, y, p, q - 1);
      assert first + (q - 1) in y.sched.tasks[first + q].deps;
    } else {
      assert first + p in y.sched.tasks[first + q].deps;
    }
  }

  /** Before position `i` of the log, the installation announced the end of this task. */
  ghost predicate EndedBefore(y: System, named: (string, Scope), i: nat)
    requires i <= |y.sched.shared.log|
  {
    exists j | 0 <= j < i ::
      var e := y.sched.shared.log[j]; e.TaskFinished? && OfInstall(y, e.task) && Is(e.task, named)
  }

  ghost predicate SucceededFirst(y: System, named: (string, Scope), i: nat)
    requires i <= |y.sched.shared.log|
  {
    exists j | 0 <= j < i ::
      var e := y.sched.shared.log[j];
      e.TaskFinished? && OfInstall(y, e.task) && Is(e.task, named) && e.task.id in y.sched.shared.succeeded
  }

  lemma EndNamed(work: Work, y: System, i: nat, j: nat, p: nat)
    requires SystemInv(work, y) && y.front.install.Some? && p < 5
    requires j < i <= |y.sched.shared.log| && y.sched.shared.log[j].TaskFinished?
    requires y.sched.shared.log[j].task.id == y.front.install.value + p
    ensures EndedBefore(y, CHAIN[p], i)
    ensures y.front.install.value + p in y.sched.shared.succeeded ==> SucceededFirst(y, CHAIN[p], i)
  {
    InstallEvents(work, y, j);
  }

  lemma NamedStart(work: Work, y: System, i: nat, q: nat)
    requires SystemInv(work, y) && i < |y.sched.shared.log| && IsTaskEvent(y.sched.shared.log[i]) && q < 5
    requires OfInstall(y, y.sched.shared.log[i].task) && Is(y.sched.shared.log[i].task, CHAIN[q])
    ensures y.sched.shared.log[i].task.id == y.front.install.value + q < |y.sched.tasks|
  {
    var k := y.sched.shared.log[i].task.id - y.front.install.value;
    InstallEvents(work, y, i);
    NamesDiffer(if k < 5 then k else 0, q);
    assert EventOk(y.sched.tasks, y.sched.shared.log, i);
  }

  lemma NeededNamed(work: Work, y: System, i: nat, p: nat)
    requires SystemInv(work, y) && y.front.install.Some? && p < 5 && i <= |y.sched.shared.log|
    requires SucceededBefore(y.sched, y.front.install.value + p, i)
    ensures SucceededFirst(y, CHAIN[p], i)
  {
    var a := y.front.install.value + p;
    var j :| 0 <= j < i && y.sched.shared.log[j].TaskFinished? && y.sched.shared.log[j].task.id == a;
    EndNamed(work, y, i, j, p);
  }

  lemma CriticalNeeded(work: Work, trace: seq<Label>, y: System, i: nat, p: nat, q: nat)
    requires Valid(work, INIT, trace) && Exec(work, INIT, trace) == y.sched && SystemInv(work, y)
    requires p < q < 5 && y.front.install.Some? && i < |y.sched.shared.log| && y.sched.shared.log[i].TaskStarted?
    requires y.sched.shared.log[i].task.id == y.front.install.value + q < |y.sched.tasks|
    ensures SucceededBefore(y.sched, y.front.install.value + p, i)
  {
    ChainNeeds(work, y, p, q);
    NeededSucceedFirst(work, trace, i, y.front.install.value + p, q - p);
  }

  lemma CriticalStart(work: Work, run: seq<Request>, y: System, i: nat, p: nat, q: nat)
    requires ValidRun(work, START, run) && y == ExecRun(work, START, run) && p < q < 5
    requires i < |y.sched.shared.log| && y.sched.shared.log[i].TaskStarted?
    requires OfInstall(y, y.sched.shared.log[i].task) && Is(y.sched.shared.log[i].task, CHAIN[q])
    ensures SucceededFirst(y, CHAIN[p], i)
  {
    ReachableSystem(work, run);
    NamedStart(work, y, i, q);
    CriticalNeeded(work, Trace(work, START, run), y, i, p, q);
    NeededNamed(work, y, i, p);
  }

  lemma FinalizeStart(work: Work, run: seq<Request>, y: System, i: nat, p: nat)
    requires ValidRun(work, START, run) && y == ExecRun(work, START, run) && p < 5
    requires y.front.install.Some? && i < |y.sched.shared.log| && y.sched.shared.log[i].TaskStarted?
    requires y.sched.shared.log[i].task.id == FinalizeId(y.front.install.value)
    ensures EndedBefore(y, CHAIN[p], i)
  {
    var log, c := y.sched.shared.log, y.front.install.value + p;
    assert exists j | 0 <= j < i :: log[j].TaskFinished? && log[j].task.id == c by {
      assert Critical(y.front.install.value)[p] == c;
      FinalizeStartsLast(work, run, i, c);
    }
    var j :| 0 <= j < i && log[j].TaskFinished? && log[j].task.id == c;
    RunSystem(work, START, run);
    EndNamed(work, y, i, j, p);
  }

  /**
   By name: when a critical task starts, all earlier ones of the chain have ended before, with success;
   when `finalize` starts, all of them have ended.
   */
  lemma InstallsInOrder(work: Work, run: seq<Request>, i: nat, p: nat)
    requires ValidRun(work, START, run) && p < 5
    requires var y := ExecRun(work, START, run);
             i < |y.sched.shared.log| && y.sched.shared.log[i].TaskStarted? && OfInstall(y, y.sched.shared.log[i].task)
    ensures var y := ExecRun(work, START, run);
            var t := y.sched.shared.log[i].task;
            && (forall q | p < q < 5 && Is(t, CHAIN[q]) :: SucceededFirst(y, CHAIN[p], i))
            && (Is(t, ("finalize", Manager)) ==> EndedBefore(y, CHAIN[p], i))
  {
    var y := ExecRun(work, START, run);
    var t, first := y.sched.shared.log[i].task, y.front.install.value;
    ReachableSystem(work, run);
    InstallEvents(work, y, i);
    if q :| p < q < 5 && Is(t, CHAIN[q]) {
      CriticalStart(work, run, y, i, p, q);
    }
    if Is(t, ("finalize", Manager)) {
      if t.id < first + 5 {
        NamesDiffer(t.id - first, 0);
        assert false;
      }
      FinalizeStart(work, run, y, i, p);
    }
  }

  /** Software is installed only after the storage was prepared and the post-partitioning scripts ran. */
  lemma PackagesAfterStorage(work: Work, run: seq<Request>, i: nat)
    requires ValidRun(work, START, run)
    requires var y := ExecRun(work, START, run);
             && i < |y.sched.shared.log| && y.sched.shared.log[i].TaskStarted?
             && OfInstall(y, y.sched.shared.log[i].task)
             && Is(y.sched.shared.log[i].task, ("software_install", Software))
    ensures var y := ExecRun(work, START, run);
            && SucceededFirst(y, ("storage_install", Storage), i)
            && SucceededFirst(y, ("post_partitioning_scripts", Files), i)
  {
    assert CHAIN[0] == ("storage_install", Storage) && CHAIN[1] == ("post_partitioning_scripts", Files);
    assert CHAIN[2] == ("software_install", Software);
    InstallsInOrder(work, run, i, 0);
    InstallsInOrder(work, run, i, 1);
  }

  /*** Which tasks failed ***/

  /** The ids are those of these tasks, in order. */
  predicate Named(tasks: seq<Task>, ids: seq<TaskId>, names: seq<(string, Scope)>) {
    && |ids| == |names|
    && forall j | 0 <= j < |ids| ::
         ids[j] < |tasks| && tasks[ids[j]].name == names[j].0 && tasks[ids[j]].scope == names[j].1
  }

  /** Each critical task has ended: the first `k` of the chain with success, the others without. */
  ghost predicate FailedFrom(y: System, k: nat) {
    && (forall p | 0 <= p < 5 :: EndedBefore(y, CHAIN[p], |y.sched.shared.log|))
    && forall i, p | 0 <= i < |y.sched.shared.log| && 0 <= p < 5 ::
         var e := y.sched.shared.log[i];
         e.TaskFinished? && OfInstall(y, e.task) && Is(e.task, CHAIN[p]) ==>
           && (e.task.id in y.sched.shared.succeeded <==> p < k)
           && (e.task.id in y.sched.shared.failed <==> k <= p)
  }

  lemma CriticalEnded(work: Work, y: System, p: nat)
    requires SystemInv(work, y) && y.front.install.Some? && p < 5
    requires y.front.install.value + p < |y.sched.phases| && y.sched.phases[y.front.install.value + p].Done?
    ensures EndedBefore(y, CHAIN[p], |y.sched.shared.log|)
  {
    var log, c := y.sched.shared.log, y.front.install.value + p;
    assert TaskOk(work, y.sched, c);
    var kinds := Kinds(log, c);
    assert kinds[|kinds| - 1] == WasFinished;
    KindSource(log, c, WasFinished);
    var j :| 0 <= j < |log| && log[j].TaskFinished? && log[j].task.id == c;
    EndNamed(work, y, |log|, j, p);
  }

  lemma SplitByName(work: Work, y: System, k: nat, i: nat, p: nat)
    requires SystemInv(work, y) && y.front.install.Some? && p < 5
    requires SplitAt(y.sched.shared, y.front.install.value, k)
    requires forall c | c in Critical(y.front.install.value) :: c < |y.sched.phases| && y.sched.phases[c].Done?
    requires i < |y.sched.shared.log| && y.sched.shared.log[i].TaskFinished?
    requires OfInstall(y, y.sched.shared.log[i].task) && Is(y.sched.shared.log[i].task, CHAIN[p])
    ensures var id := y.sched.shared.log[i].task.id;
            (id in y.sched.shared.succeeded <==> p < k) && (id in y.sched.shared.failed <==> k <= p)
  {
    NamedStart(work, y, i, p);
    var c := y.front.install.value + p;
    assert Critical(y.front.install.value)[p] == c;
    EndedOneWay(work, y.sched, c);
  }

  lemma SplitNames(work: Work, y: System, k: nat)
    requires SystemInv(work, y) && y.front.install.Some? && SplitAt(y.sched.shared, y.front.install.value, k)
    requires forall c | c in Critical(y.front.install.value) :: c < |y.sched.phases| && y.sched.phases[c].Done?
    ensures FailedFrom(y, k)
  {
    var log := y.sched.shared.log;
    forall p | 0 <= p < 5 ensures EndedBefore(y, CHAIN[p], |log|) {
      assert Critical(y.front.install.value)[p] == y.front.install.value + p;
      CriticalEnded(work, y, p);
    }
    forall i, p | 0 <= i < |log| && 0 <= p < 5 && log[i].TaskFinished? && OfInstall(y, log[i].task)
                  && Is(log[i].task, CHAIN[p])
      ensures log[i].task.id in y.sched.shared.succeeded <==> p < k
      ensures log[i].task.id in y.sched.shared.failed <==> k <= p
    {
      SplitByName(work, y, k, i, p);
    }
  }

  lemma ChainTask(work: Work, y: System, p: nat)
    requires SystemInv(work, y) && y.front.install.Some? && p < 5
    requires forall c | c in Critical(y.front.install.value) :: c < |y.sched.phases|
    ensures var id := Critical(y.front.install.value)[p];
            && id < |y.sched.tasks| && y.sched.tasks[id].name == CHAIN[p].0
            && y.sched.tasks[id].scope == CHAIN[p].1
  {
    var first := y.front.install.value;
    assert Critical(first)[p] == first + p;
    assert first + p in Critical(first) && |y.sched.phases| == |y.sched.tasks|;
    GraphNames(first, p);
    InstallTask(y, work, p);
  }

  lemma ChainNamed(work: Work, y: System, k: nat)
    requires SystemInv(work, y) && y.front.install.Some? && k <= 5
    requires forall c | c in Critical(y.front.install.value) :: c < |y.sched.phases|
    ensures Named(y.sched.tasks, Critical(y.front.install.value)[k..], CHAIN[k..])
  {
    forall j: nat | j < 5 - k
      ensures var id := Critical(y.front.install.value)[k..][j];
              && id < |y.sched.tasks| && y.sched.tasks[id].name == CHAIN[k..][j].0
              && y.sched.tasks[id].scope == CHAIN[k..][j].1
    {
      ChainTask(work, y, k + j);
    }
  }

  /**
   What `finalize` is told: the critical tasks that failed, by name and scope, are the last ones of the
   chain storage, post-partitioning scripts, software, configuration, finish.
   */
  lemma FailedByName(work: Work, run: seq<Request>, y: System) returns (k: nat)
    requires ValidRun(work, START, run) && y == ExecRun(work, START, run) && y.front.install.Some?
    requires var z := FinalizeId(y.front.install.value); z < |y.sched.phases| && Decided(y.sched.phases[z])
    ensures k <= 5 && FailedFrom(y, k)
    ensures Named(y.sched.tasks, y.sched.phases[FinalizeId(y.front.install.value)].failedDeps, CHAIN[k..])
  {
    ReachableSystem(work, run);
    FinalizeWasLast(work, y);
    k := FailedSuffix(work, y);
    SplitNames(work, y, k);
    ChainNamed(work, y, k);
  }

  lemma AllSucceeded(work: Work, y: System, first: TaskId, k: nat)
    requires SystemInv(work, y) && SplitAt(y.sched.shared, first, k)
    ensures (forall c | c in Critical(first) :: c in y.sched.shared.succeeded) <==> k == 5
  {
    if k < 5 {
      assert Critical(first)[k] == first + k;
      FailedNotSucceeded(work, y, first + k);
    }
  }

  /** Where every installation ends, by the names of the tasks that failed. */
  lemma EndsByName(work: Work, run: seq<Request>) returns (k: nat)
    requires ValidRun(work, START, run) && Settled(ExecRun(work, START, run))
    requires ExecRun(work, START, run).front.install.Some?
    requires TotalProgress(work, ExecRun(work, START, run).front.install.value)
    ensures var y := ExecRun(work, START, run);
            var z := FinalizeId(y.front.install.value);
            && k <= 5 && FailedFrom(y, k) && z < |y.sched.phases| && y.sched.phases[z].Done?
            && Named(y.sched.tasks, y.sched.phases[z].failedDeps, CHAIN[k..])
            && y.front.stage == if k == 5 then Stage.Finished else Failed
  {
    ReachableSystem(work, run);
    k := SettledByName(work, ExecRun(work, START, run));
  }

  lemma SettledByName(work: Work, y: System) returns (k: nat)
    requires SystemInv(work, y) && Settled(y) && y.front.install.Some?
    requires TotalProgress(work, y.front.install.value)
    ensures var z := FinalizeId(y.front.install.value);
            && k <= 5 && FailedFrom(y, k) && z < |y.sched.phases| && y.sched.phases[z].Done?
            && Named(y.sched.tasks, y.sched.phases[z].failedDeps, CHAIN[k..])
            && y.front.stage == if k == 5 then Stage.Finished else Failed
  {
    var first := y.front.install.value;
    k := SettledOutcome(work, y, first);
    FinalizeWasLast(work, y);
    SplitNames(work, y, k);
    ChainNamed(work, y, k);
    AllSucceeded(work, y, first, k);
  }
}
