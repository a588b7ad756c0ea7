/** Safety of an installation over whole runs of the service. */
module InstallationTheorems {
  import opened Events
  import opened TaskManagement
  import opened Scheduler
  import opened SchedulerInvariant
  import opened SchedulerTheorems
  import opened Actions
  import opened ConfigurationOrder
  import opened ManagerService
  import opened Installation

  lemma ReachableSystem(work: Work, run: seq<Request>)
    requires ValidRun(work, START, run)
    ensures SystemInv(work, ExecRun(work, START, run))
    ensures Valid(work, INIT, Trace(work, START, run))
    ensures Exec(work, INIT, Trace(work, START, run)) == ExecRun(work, START, run).sched
  {
    RunSystem(work, START, run);
    TraceIsRun(work, START, run);
  }

  /**
   Once an installation is accepted, every further request of any run is rejected: the set of tasks,
   spawned or still to be spawned, never changes again, and the stage never is Configuring again.
   */
  lemma {:induction false} NothingAfterInstall(work: Work, y: System, run: seq<Request>)
    requires SystemInv(work, y) && ValidRun(work, y, run) && y.front.install.Some?
    ensures var z := ExecRun(work, y, run);
            && z.front.install == y.front.install && z.front.configs == y.front.configs
            && AllTasks(z) == AllTasks(y) && z.front.stage != Configuring
    decreases run
  {
    if run != [] {
      StepSystem(work, y, run[0]);
      assert AllTasks(Perform(work, y, run[0])) == AllTasks(y);
      NothingAfterInstall(work, Perform(work, y, run[0]), run[1..]);
    }
  }

  /** No task is ever requested that is not part of an accepted request. */
  lemma {:induction false} TasksComeFromGraphs(work: Work, run: seq<Request>, id: TaskId)
    requires ValidRun(work, START, run) && id < |ExecRun(work, START, run).sched.tasks|
    ensures var y := ExecRun(work, START, run);
            || (y.front.install.Some? && y.front.install.value <= id < y.front.install.value + 6)
            || (exists c | c in y.front.configs :: c.0 <= id < c.0 + |ConfigGraph(c.0, c.1)|)
  {
    Covered(work, START, run, id);
  }

  ghost predicate CoveredBy(f: Front, id: TaskId) {
    || (f.install.Some? && f.install.value <= id < f.install.value + 6)
    || (exists c | c in f.configs :: c.0 <= id < c.0 + |ConfigGraph(c.0, c.1)|)
  }

  lemma CoveredStays(work: Work, y: System, r: Request, j: TaskId)
    requires WellFormed(y) && Possible(y, r) && CoveredBy(y.front, j) && GraphsOk(y)
    ensures CoveredBy(Perform(work, y, r).front, j)
  {
    var f, f' := y.front, Perform(work, y, r).front;
    if !(f.install.Some? && f.install.value <= j < f.install.value + 6) {
      var c :| c in f.configs && c.0 <= j < c.0 + |ConfigGraph(c.0, c.1)|;
      assert c in f'.configs;
    }
  }

  lemma NewIsCovered(work: Work, y: System, r: Request, j: TaskId)
    requires WellFormed(y) && Possible(y, r) && GraphsOk(y)
    requires |AllTasks(y)| <= j < |AllTasks(Perform(work, y, r))|
    ensures CoveredBy(Perform(work, y, r).front, j)
  {
    var y' := Perform(work, y, r);
    if r.SetConfig? {
      assert y'.front.configs[|y.front.configs|] == (|y.sched.tasks|, ShapeOf(r.config));
    }
  }

  lemma {:induction false} Covered(work: Work, y: System, run: seq<Request>, id: TaskId)
    requires SystemInv(work, y) && ValidRun(work, y, run)
    requires forall j: nat | j < |AllTasks(y)| :: CoveredBy(y.front, j)
    requires id < |AllTasks(ExecRun(work, y, run))|
    ensures CoveredBy(ExecRun(work, y, run).front, id)
    decreases run
  {
    if run != [] {
      var y' := Perform(work, y, run[0]);
      StepSystem(work, y, run[0]);
      forall j: nat | j < |AllTasks(y')| ensures CoveredBy(y'.front, j) {
        if j < |AllTasks(y)| {
          CoveredStays(work, y, run[0], j);
        } else {
          NewIsCovered(work, y, run[0], j);
        }
      }
      Covered(work, y', run[1..], id);
    }
  }

  /** The critical tasks before position `k` succeeded, the others failed. */
  predicate SplitAt(sh: Shared, first: TaskId, k: nat) {
    k <= 5 && forall c | c in Critical(first) :: if c < first + k then c in sh.succeeded else c in sh.failed
  }

  /** Every finished critical task succeeded or failed, and fails if the one before it failed. */
  lemma EndedOneWay(work: Work, s: State, c: TaskId)
    requires Inv(work, s) && c < |s.phases| && s.phases[c].Done?
    ensures c in s.shared.succeeded <==> c !in s.shared.failed
  {
    assert TaskOk(work, s, c);
  }

  lemma FailsAfterFailed(work: Work, s: State, c: TaskId, d: TaskId)
    requires Inv(work, s) && c < |s.phases| && s.phases[c].Done?
    requires s.tasks[c].deps == [d] && !s.tasks[c].runAlways && d in s.shared.failed
    ensures c in s.shared.failed
  {
    assert TaskOk(work, s, c);
    assert FailedAmong(s.shared.failed, [d]) == [d];
  }

  lemma CriticalLink(work: Work, y: System, c: TaskId)
    requires SystemInv(work, y) && y.front.install.Some? && c in Critical(y.front.install.value)
    requires c < |y.sched.phases| && y.sched.phases[c].Done?
    ensures c in y.sched.shared.succeeded <==> c !in y.sched.shared.failed
    ensures c > y.front.install.value && c - 1 in y.sched.shared.failed ==> c in y.sched.shared.failed
  {
    var first := y.front.install.value;
    EndedOneWay(work, y.sched, c);
    if c > first && c - 1 in y.sched.shared.failed {
      assert y.sched.tasks[c] == InstallGraph(first)[c - first] by {
        InstallTask(y, work, c - first);
      }
      FailsAfterFailed(work, y.sched, c, c - 1);
    }
  }

  /** When `finalize` is decided, the failed ones among the critical tasks are a suffix of the chain. */
  lemma FailedSuffix(work: Work, y: System) returns (k: nat)
    requires SystemInv(work, y) && y.front.install.Some?
    requires var z := FinalizeId(y.front.install.value); z < |y.sched.phases| && Decided(y.sched.phases[z])
    ensures SplitAt(y.sched.shared, y.front.install.value, k)
    ensures y.sched.phases[FinalizeId(y.front.install.value)].failedDeps == Critical(y.front.install.value)[k..]
  {
    FinalizeWasLast(work, y);
    forall c | c in Critical(y.front.install.value)
      ensures c in y.sched.shared.succeeded <==> c !in y.sched.shared.failed
      ensures c > y.front.install.value && c - 1 in y.sched.shared.failed ==> c in y.sched.shared.failed
    {
      CriticalLink(work, y, c);
    }
    k := SplitPoint(y.sched.shared, y.front.install.value);
  }

  lemma SplitPoint(sh: Shared, first: TaskId) returns (k: nat)
    requires forall c | c in Critical(first) :: c in sh.succeeded <==> c !in sh.failed
    requires forall c | c in Critical(first) && c > first :: c - 1 in sh.failed ==> c in sh.failed
    ensures SplitAt(sh, first, k) && FailedAmong(sh.failed, Critical(first)) == Critical(first)[k..]
  {
    var ids := Critical(first);
    k := FirstFailed(sh.failed, ids);
    forall j | 0 <= j < 5 ensures ids[j] in sh.failed <==> j >= k {
      FailedFrom(sh.failed, first, k, j);
    }
    FailedTail(sh.failed, ids, k);
    SplitsAt(sh, first, k);
  }

  lemma {:induction false} SplitsAt(sh: Shared, first: TaskId, k: nat)
    requires forall c | c in Critical(first) :: c in sh.succeeded <==> c !in sh.failed
    requires k <= 5 && forall j | 0 <= j < 5 :: Critical(first)[j] in sh.failed <==> j >= k
    ensures SplitAt(sh, first, k)
  {
    forall c | c in Critical(first) ensures c in sh.failed <==> c >= first + k {
      assert Critical(first)[c - first] == c;
    }
  }

  /** The position of the first failed task, or the length. */
  function FirstFailed(failed: set<TaskId>, ids: seq<TaskId>): (k: nat)
    ensures k <= |ids| && (forall j | 0 <= j < k :: ids[j] !in failed) && (k < |ids| ==> ids[k] in failed)
  {
    if ids == [] || ids[0] in failed then 0 else 1 + FirstFailed(failed, ids[1..])
  }

  lemma {:induction false} FailedFrom(failed: set<TaskId>, first: TaskId, k: nat, j: nat)
    requires k == FirstFailed(failed, Critical(first)) && j < 5
    requires forall c | c in Critical(first) && c > first :: c - 1 in failed ==> c in failed
    ensures Critical(first)[j] in failed <==> j >= k
  {
    if j > k {
      FailedFrom(failed, first, k, j - 1);
      assert Critical(first)[j] in Critical(first) && Critical(first)[j] - 1 == Critical(first)[j - 1];
    }
  }

  lemma {:induction false} FailedTail(failed: set<TaskId>, ids: seq<TaskId>, k: nat)
    requires k <= |ids|
    requires forall j | 0 <= j < |ids| :: ids[j] in failed <==> j >= k
    ensures FailedAmong(failed, ids) == ids[k..]
  {
    if ids != [] {
      FailedTail(failed, ids[1..], if k == 0 then 0 else k - 1);
    }
  }

  /*** Where an installation ends ***/

  /** The service can do nothing more by itself. */
  ghost predicate Settled(y: System)
    requires WellFormed(y)
  {
    && !Possible(y, Spawn)
    && (forall id: TaskId :: !Possible(y, SetFinalStage(id)))
    && (forall l: Label | Internal(l) :: !Possible(y, TaskStep(l)))
  }

  ghost predicate AlwaysSucceeds(work: Work, id: TaskId) {
    forall deps: seq<TaskId> :: work(id, deps)
  }

  /** The progress calls that make up the work of the last two tasks succeed. */
  ghost predicate TotalProgress(work: Work, first: TaskId) {
    AlwaysSucceeds(work, first + 4) && AlwaysSucceeds(work, FinalizeId(first))
  }

  lemma SettledIsQuiescent(work: Work, y: System)
    requires SystemInv(work, y) && Settled(y)
    ensures Quiescent(y.sched) && y.front.queue == []
  {
    forall l | Internal(l) ensures !Enabled(y.sched, l) {
      assert !Possible(y, TaskStep(l));
      if l.Finish? {
        assert !Possible(y, SetFinalStage(l.id));
      }
    }
    assert HandedOver(y) && WriteFree(y.sched) by {
      forall p | p in y.sched.phases ensures !p.Allocated? && !p.Stored? && !p.Undecided? {
        var id :| 0 <= id < |y.sched.phases| && y.sched.phases[id] == p;
        QuiescentPhase(work, y.sched, id);
      }
    }
  }

  /** Every task of a settled service is finished. */
  lemma SettledFinishesAll(work: Work, y: System, id: TaskId)
    requires SystemInv(work, y) && Settled(y) && id < |y.sched.tasks|
    ensures IsDone(y.sched, id) && y.sched.phases[id].Done? && y.sched.tasks == AllTasks(y)
  {
    SettledIsQuiescent(work, y);
    assert AllTasks(y) == y.sched.tasks;
    OrderedIsGrounded(y.sched.tasks, id, id + 1);
    GroundedFinishes(work, y.sched, id, id + 1);
    assert TaskOk(work, y.sched, id);
  }

  /**
   The end of an installation: `finalize` ran exactly once, after the end of all critical tasks, and
   was told exactly the failed ones, a suffix of the chain. The stage is Finished if none failed, and
   Failed otherwise.
   */
  lemma InstallationEnds(work: Work, run: seq<Request>)
    requires ValidRun(work, START, run) && Settled(ExecRun(work, START, run))
    requires ExecRun(work, START, run).front.install.Some?
    requires TotalProgress(work, ExecRun(work, START, run).front.install.value)
    ensures var y := ExecRun(work, START, run);
            var first := y.front.install.value;
            var sh := y.sched.shared;
            && Kinds(sh.log, FinalizeId(first)) == [WasAdded, WasStarted, WasFinished]
            && FinalizeId(first) in sh.succeeded
            && (forall c | c in Critical(first) :: IsDone(y.sched, c))
            && FinalizeId(first) < |y.sched.phases| && y.sched.phases[FinalizeId(first)].Done?
            && (exists k | 0 <= k <= 5 ::
                  SplitAt(sh, first, k) && y.sched.phases[FinalizeId(first)].failedDeps == Critical(first)[k..])
            && y.front.stage == (if forall c | c in Critical(first) :: c in sh.succeeded
                                 then Stage.Finished else Failed)
  {
    var y := ExecRun(work, START, run);
    var first := y.front.install.value;
    ReachableSystem(work, run);
    SettledIsQuiescent(work, y);
    EventGrammar(work, Trace(work, START, run), FinalizeId(first)) by {
      SettledFinishesAll(work, y, FinalizeId(first));
    }
    var k := SettledOutcome(work, y, first);
  }

  lemma SettledOutcome(work: Work, y: System, first: TaskId) returns (k: nat)
    requires SystemInv(work, y) && Settled(y) && y.front.install == Some(first) && TotalProgress(work, first)
    ensures var z := FinalizeId(first);
            && z < |y.sched.phases| && y.sched.phases[z].Done? && z in y.sched.shared.succeeded
            && y.sched.tasks[z].runAlways
            && (forall c | c in Critical(first) :: IsDone(y.sched, c))
            && SplitAt(y.sched.shared, first, k)
            && y.sched.phases[z].failedDeps == Critical(first)[k..]
            && y.front.stage == (if forall c | c in Critical(first) :: c in y.sched.shared.succeeded
                                 then Stage.Finished else Failed)
  {
    FinalizeIsDone(work, y, first);
    k := FailedSuffix(work, y);
    StageAtEnd(work, y, first, k);
  }

  lemma FinalizeIsDone(work: Work, y: System, first: TaskId)
    requires SystemInv(work, y) && Settled(y) && y.front.install == Some(first) && TotalProgress(work, first)
    ensures var z := FinalizeId(first);
            && z < |y.sched.phases| && y.sched.phases[z].Done? && z in y.sched.shared.succeeded
            && y.sched.tasks[z].runAlways
  {
    assert FinalizeId(first) < |y.sched.tasks| by {
      SettledIsQuiescent(work, y);
    }
    SettledFinishesAll(work, y, FinalizeId(first));
    InstallTask(y, work, 5);
  }

  lemma FinalizeRan(work: Work, y: System, first: TaskId)
    requires SystemInv(work, y) && y.front.install == Some(first)
    requires FinalizeId(first) < |y.sched.phases| && y.sched.phases[FinalizeId(first)].Done?
    ensures y.sched.phases[FinalizeId(first)].ran
  {
    InstallTask(y, work, 5);
  }

  lemma SucceededRan(work: Work, y: System, c: TaskId)
    requires Inv(work, y.sched) && c in y.sched.shared.succeeded
    ensures EndedRun(y, c)
  {
    assert c < |y.sched.tasks| && TaskOk(work, y.sched, c);
  }

  lemma StageAtEnd(work: Work, y: System, first: TaskId, k: nat)
    requires SystemInv(work, y) && y.front.install == Some(first)
    requires FinalizeId(first) < |y.sched.phases| && y.sched.phases[FinalizeId(first)].Done?
    requires SplitAt(y.sched.shared, first, k)
    requires y.sched.phases[FinalizeId(first)].failedDeps == Critical(first)[k..]
    ensures y.front.stage == (if forall c | c in Critical(first) :: c in y.sched.shared.succeeded
                              then Stage.Finished else Failed)
  {
    FinalizeRan(work, y, first);
    if k == 5 {
      SucceededRan(work, y, first + 4);
    } else {
      FailedNotSucceeded(work, y, first + k);
    }
  }

  lemma FailedNotSucceeded(work: Work, y: System, c: TaskId)
    requires Inv(work, y.sched) && c in y.sched.shared.failed
    ensures c !in y.sched.shared.succeeded
  {
    assert c < |y.sched.tasks| && TaskOk(work, y.sched, c);
  }

  lemma FinalizeNeeds(work: Work, y: System, i: nat, c: TaskId)
    requires SystemInv(work, y) && y.front.install.Some? && c in Critical(y.front.install.value)
    requires i < |y.sched.shared.log| && y.sched.shared.log[i].TaskStarted?
    requires y.sched.shared.log[i].task.id == FinalizeId(y.front.install.value)
    ensures var z := FinalizeId(y.front.install.value); z < |y.sched.tasks| && c in y.sched.tasks[z].deps
  {
    assert EventOk(y.sched.tasks, y.sched.shared.log, i);
    InstallTask(y, work, 5);
  }

  /** `finalize` starts only after the end of every critical task was announced. */
  lemma FinalizeStartsLast(work: Work, run: seq<Request>, i: nat, c: TaskId)
    requires ValidRun(work, START, run)
    requires var y := ExecRun(work, START, run);
             y.front.install.Some? && c in Critical(y.front.install.value)
             && i < |y.sched.shared.log| && y.sched.shared.log[i].TaskStarted?
             && y.sched.shared.log[i].task.id == FinalizeId(y.front.install.value)
    ensures var log := ExecRun(work, START, run).sched.shared.log;
            exists j | 0 <= j < i :: log[j].TaskFinished? && log[j].task.id == c
  {
    var y := ExecRun(work, START, run);
    ReachableSystem(work, run);
    FinalizeNeeds(work, y, i, c);
    StartsAfterDependencies(work, Trace(work, START, run), i, c);
  }

  /** The stage only moves from Configuring to Installing, and from there to Finished or to Failed. */
  lemma StageMovesForward(work: Work, run: seq<Request>, r: Request)
    requires ValidRun(work, START, run) && Possible(ExecRun(work, START, run), r)
    requires forall first | ExecRun(work, START, run).front.install == Some(first) :: TotalProgress(work, first)
    ensures var y := ExecRun(work, START, run);
            var before, after := y.front.stage, Perform(work, y, r).front.stage;
            || before == after
            || (before == Configuring && after == Installing)
            || (before == Installing && (after == Stage.Finished || after == Failed))
  {
    var y := ExecRun(work, START, run);
    assert SystemInv(work, y) by {
      ReachableSystem(work, run);
    }
    StepMovesForward(work, y, r);
  }

  lemma StepMovesForward(work: Work, y: System, r: Request)
    requires SystemInv(work, y) && Possible(y, r)
    requires forall first | y.front.install == Some(first) :: TotalProgress(work, first)
    ensures var before, after := y.front.stage, Perform(work, y, r).front.stage;
            || before == after
            || (before == Configuring && after == Installing)
            || (before == Installing && (after == Stage.Finished || after == Failed))
  {
    if r.SetFinalStage? {
      var first := y.front.install.value;
      StepStage(work, y, r);
      assert y.front.install == Some(first);
      if r.id == FinalizeId(first) && first + 4 in y.staged {
        FinishSucceeded(work, y, first);
        FinalizeToldOfFailure(work, y, first);
        assert false;
      }
    }
  }

  lemma FinishSucceeded(work: Work, y: System, first: TaskId)
    requires SystemInv(work, y) && y.front.install == Some(first) && TotalProgress(work, first)
    requires first + 4 in y.staged
    ensures first + 4 !in y.sched.shared.failed
  {
    assert Ran(y, first + 4);
    InstallTask(y, work, 4);
    assert work(first + 4, y.sched.phases[first + 4].failedDeps);
  }

  lemma FinalizeToldOfFailure(work: Work, y: System, first: TaskId)
    requires SystemInv(work, y) && y.front.install == Some(first)
    requires FinalStage(y, FinalizeId(first)).Some?
    ensures first + 4 in y.sched.shared.failed
  {
    var k := FailedSuffix(work, y);
    assert Critical(first)[4] == first + 4 && first + 4 in Critical(first);
  }

  /*** Every accepted configuration ***/

  /**
   However many configurations were accepted one after the other, each follows its own order: storage
   and software wait for what they need, and nothing but questions and files starts without the scripts.
   */
  lemma EachConfigInOrder(work: Work, run: seq<Request>, c: (TaskId, Shape), i: nat)
    requires ValidRun(work, START, run) && c in ExecRun(work, START, run).front.configs
    requires var log := ExecRun(work, START, run).sched.shared.log; i < |log| && log[i].TaskStarted?
    ensures var (first, shape) := c;
            var s := ExecRun(work, START, run).sched;
            var id := s.shared.log[i].task.id;
            && (shape.product && id == StorageId(first, shape) ==>
                  forall a | a in StorageNeeds(first, shape) :: SucceededBefore(s, a, i))
            && (shape.product && id == SoftwareId(first, shape) ==>
                  forall a | a in SoftwareNeeds(first, shape) :: SucceededBefore(s, a, i))
            && (first + 3 <= id < first + |ConfigGraph(first, shape)| ==> SucceededBefore(s, PreScriptsId(first), i))
  {
    var y := ExecRun(work, START, run);
    var trace := Trace(work, START, run);
    ReachableSystem(work, run);
    var id := y.sched.shared.log[i].task.id;
    if c.1.product && id == StorageId(c.0, c.1) {
      StorageWaits(work, trace, c.0, c.1, i);
    }
    if c.1.product && id == SoftwareId(c.0, c.1) {
      SoftwareWaits(work, trace, c.0, c.1, i);
    }
    if c.0 + 3 <= id < c.0 + |ConfigGraph(c.0, c.1)| {
      OnlyAfterPreScripts(work, trace, c.0, c.1, i);
    }
  }
}
