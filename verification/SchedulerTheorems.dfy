/** What the task manager promises its callers, for every run from the empty manager. */
module SchedulerTheorems {
  import opened Events
  import opened TaskManagement
  import opened Scheduler
  import opened SchedulerInvariant

  /*** Safety ***/

  /** Each allocated id is in one place: waiting to be stored, in `metadata`, `succeeded` or `failed`. */
  lemma Partition(work: Work, run: seq<Label>, id: TaskId)
    requires Valid(work, INIT, run)
    ensures var s := Exec(work, INIT, run); var sh := s.shared;
            var places := [id < |s.phases| && s.phases[id].Allocated?,
                           id in sh.metadata, id in sh.succeeded, id in sh.failed];
            if id < sh.nextId
            then exists i | 0 <= i < 4 :: places[i] && forall j | 0 <= j < 4 && j != i :: !places[j]
            else forall j | 0 <= j < 4 :: !places[j]
  {
    ReachableInv(work, run);
    var s := Exec(work, INIT, run);
    var sh := s.shared;
    var places := [id < |s.phases| && s.phases[id].Allocated?,
                   id in sh.metadata, id in sh.succeeded, id in sh.failed];
    if id < sh.nextId {
      assert TaskOk(work, s, id);
      var i := if places[0] then 0 else if places[1] then 1 else if places[2] then 2 else 3;
      assert places[i] && forall j | 0 <= j < 4 && j != i :: !places[j];
    }
  }

  /** A parked task whose dependencies are all finished can wake up: no notification is lost. */
  lemma NoLostWakeup(work: Work, run: seq<Label>, id: TaskId)
    requires Valid(work, INIT, run)
    requires var s := Exec(work, INIT, run);
             id < |s.tasks| && s.phases[id].Parked? && AllDone(s.shared, s.tasks[id].deps)
    ensures Enabled(Exec(work, INIT, run), Wake(id))
  {
    ReachableInv(work, run);
    assert TaskOk(work, Exec(work, INIT, run), id);
  }

  /**
   The event log of a task: one Added, one Started unless it was cancelled, one Finished; and a
   finished task was cancelled exactly when it depends on a failed one and is not `run_always`.
   */
  lemma EventGrammar(work: Work, run: seq<Label>, id: TaskId)
    requires Valid(work, INIT, run)
    requires IsDone(Exec(work, INIT, run), id)
    ensures id < |Exec(work, INIT, run).tasks|
    ensures var s := Exec(work, INIT, run);
            var cancelled := !s.tasks[id].runAlways && exists d :: d in s.tasks[id].deps && d in s.shared.failed;
            Kinds(s.shared.log, id) ==
              if cancelled then [WasAdded, WasFinished] else [WasAdded, WasStarted, WasFinished]
  {
    ReachableInv(work, run);
    var s := Exec(work, INIT, run);
    assert TaskOk(work, s, id);
    var failedDeps := FailedAmong(s.shared.failed, s.tasks[id].deps);
    if failedDeps != [] {
      assert failedDeps[0] in failedDeps;
    }
  }

  /** When a task starts, all its dependencies have finished before, and succeeded unless it is `run_always`. */
  lemma StartsAfterDependencies(work: Work, run: seq<Label>, i: nat, d: TaskId)
    requires Valid(work, INIT, run)
    requires var s := Exec(work, INIT, run);
             i < |s.shared.log| && s.shared.log[i].TaskStarted?
             && s.shared.log[i].task.id < |s.tasks| && d in s.tasks[s.shared.log[i].task.id].deps
    ensures var s := Exec(work, INIT, run);
            && (exists j | 0 <= j < i :: s.shared.log[j].TaskFinished? && s.shared.log[j].task.id == d)
            && (!s.tasks[s.shared.log[i].task.id].runAlways ==> d in s.shared.succeeded)
  {
    ReachableInv(work, run);
    var s := Exec(work, INIT, run);
    assert EventOk(s.tasks, s.shared.log, i);
    KindSource(s.shared.log[..i], d, WasFinished);
    StartedDependency(work, s, s.shared.log[i].task.id, d, i);
  }

  /** Where a kind in the history of a task comes from. */
  lemma {:induction false} KindSource(log: seq<Event>, id: TaskId, kind: Kind)
    requires kind in Kinds(log, id)
    ensures exists j | 0 <= j < |log| ::
              IsTaskEvent(log[j]) && log[j].task.id == id
              && (kind.WasAdded? <==> log[j].TaskAdded?)
              && (kind.WasStarted? <==> log[j].TaskStarted?)
              && (kind.WasFinished? <==> log[j].TaskFinished?)
  {
    var n := |log| - 1;
    if kind in Kinds(log[..n], id) {
      KindSource(log[..n], id, kind);
      var j :| 0 <= j < n &&
               IsTaskEvent(log[..n][j]) && log[..n][j].task.id == id
               && (kind.WasAdded? <==> log[..n][j].TaskAdded?)
               && (kind.WasStarted? <==> log[..n][j].TaskStarted?)
               && (kind.WasFinished? <==> log[..n][j].TaskFinished?);
      assert log[j] == log[..n][j];
    } else {
      assert IsTaskEvent(log[n]) && log[n].task.id == id;
    }
  }

  /** ... and that each event leaves its kind in the history. */
  lemma {:induction false} KindLeft(log: seq<Event>, i: nat)
    requires i < |log| && IsTaskEvent(log[i])
    ensures log[i].TaskAdded? ==> WasAdded in Kinds(log, log[i].task.id)
    ensures log[i].TaskStarted? ==> WasStarted in Kinds(log, log[i].task.id)
    ensures log[i].TaskFinished? ==> WasFinished in Kinds(log, log[i].task.id)
  {
    if i < |log| - 1 {
      KindLeft(log[..|log| - 1], i);
    }
  }

  lemma StartedDependency(work: Work, s: State, id: TaskId, d: TaskId, i: nat)
    requires Inv(work, s) && id < |s.tasks| && d in s.tasks[id].deps
    requires i < |s.shared.log| && s.shared.log[i].TaskStarted? && s.shared.log[i].task.id == id
    ensures !s.tasks[id].runAlways ==> d in s.shared.succeeded
  {
    KindLeft(s.shared.log, i);
    assert TaskOk(work, s, id);
  }

  /*** Outcomes do not depend on the schedule ***/

  lemma {:induction false} OutcomeAgrees(work: Work, s: State, id: TaskId, fuel: nat)
    requires Inv(work, s) && IsDone(s, id) && Resolvable(s.tasks, id, fuel)
    ensures id in s.shared.succeeded <==> Succeeds(s.tasks, work, id, fuel)
    ensures s.phases[id].Done? && s.phases[id].failedDeps == Failing(s.tasks, work, s.tasks[id].deps, fuel - 1)
    decreases fuel, 0
  {
    assert TaskOk(work, s, id);
    FailingAgrees(work, s, s.tasks[id].deps, fuel - 1);
  }

  lemma {:induction false} FailingAgrees(work: Work, s: State, ids: seq<TaskId>, fuel: nat)
    requires Inv(work, s)
    requires forall d | d in ids :: IsDone(s, d) && Resolvable(s.tasks, d, fuel)
    ensures Failing(s.tasks, work, ids, fuel) == FailedAmong(s.shared.failed, ids)
    decreases fuel, 1 + |ids|
  {
    if ids != [] {
      assert ids[0] in ids && IsDone(s, ids[0]) && TaskOk(work, s, ids[0]);
      OutcomeAgrees(work, s, ids[0], fuel);
      FailingAgrees(work, s, ids[1..], fuel);
    }
  }

  lemma {:induction false} IdsBelow(ids: set<TaskId>, n: nat)
    requires forall id | id in ids :: id < n
    ensures |ids| <= n
  {
    if n > 0 {
      IdsBelow(ids - {n - 1}, n - 1);
    } else {
      assert ids == {};
    }
  }

  lemma DoneIsGrounded(work: Work, s: State, id: TaskId)
    requires Inv(work, s) && IsDone(s, id)
    ensures Resolvable(s.tasks, id, |s.tasks|)
  {
    var done := s.shared.succeeded + s.shared.failed;
    forall j | j in done ensures !(j in s.shared.succeeded && j in s.shared.failed) {
      assert TaskOk(work, s, j);
    }
    assert s.shared.succeeded * s.shared.failed == {};
    assert |done| == FinishedCount(s.shared);
    IdsBelow(done, |s.tasks|);
    ResolvableGrows(s.tasks, [], id, FinishedCount(s.shared), |s.tasks|);
    assert s.tasks + [] == s.tasks;
  }

  /**
   Schedule independence: at the end of any run, a finished task has the outcome that recursion over
   its dependencies gives, and was told about exactly the dependencies that fail there, in order.
   */
  lemma ScheduleIndependence(work: Work, run: seq<Label>, id: TaskId)
    requires Valid(work, INIT, run) && IsDone(Exec(work, INIT, run), id)
    ensures var s := Exec(work, INIT, run);
            && Resolvable(s.tasks, id, |s.tasks|)
            && (id in s.shared.succeeded <==> Succeeds(s.tasks, work, id, |s.tasks|))
            && s.phases[id].Done?
            && s.phases[id].failedDeps == Failing(s.tasks, work, s.tasks[id].deps, |s.tasks| - 1)
  {
    ReachableInv(work, run);
    DoneIsGrounded(work, Exec(work, INIT, run), id);
    OutcomeAgrees(work, Exec(work, INIT, run), id, |Exec(work, INIT, run).tasks|);
  }

  /*** Progress and termination ***/

  predicate Ordered(tasks: seq<Task>) {
    forall id: nat, d | 0 <= id < |tasks| && d in tasks[id].deps :: d < id
  }

  /** Dependencies on ids handed out earlier are always grounded. */
  lemma {:induction false} OrderedIsGrounded(tasks: seq<Task>, id: TaskId, fuel: nat)
    requires Ordered(tasks) && id < |tasks| && id < fuel
    ensures Resolvable(tasks, id, fuel)
    decreases fuel
  {
    forall d | d in tasks[id].deps ensures Resolvable(tasks, d, fuel - 1) {
      OrderedIsGrounded(tasks, d, fuel - 1);
    }
  }

  lemma {:induction false} GroundedFinishes(work: Work, s: State, id: TaskId, fuel: nat)
    requires Inv(work, s) && Quiescent(s) && Resolvable(s.tasks, id, fuel)
    ensures IsDone(s, id)
    decreases fuel
  {
    forall d | d in s.tasks[id].deps ensures IsDone(s, d) {
      GroundedFinishes(work, s, d, fuel - 1);
    }
    assert TaskOk(work, s, id);
    QuiescentPhase(work, s, id);
  }

  lemma QuiescentPhase(work: Work, s: State, id: TaskId)
    requires Inv(work, s) && Quiescent(s) && id < |s.tasks|
    ensures s.phases[id].Done? || (s.phases[id].Parked? && !AllDone(s.shared, s.tasks[id].deps))
  {
    forall j: nat | j < |s.phases| ensures !s.phases[j].Undecided? {
      assert !Enabled(s, Park(j));
    }
    assert WriteFree(s);
    assert TaskOk(work, s, id);
    assert !Enabled(s, StoreTask(id)) && !Enabled(s, Announce(id)) && !Enabled(s, Check(id));
    assert !Enabled(s, Wake(id)) && !Enabled(s, Cancel(id)) && !Enabled(s, Start(id)) && !Enabled(s, Finish(id));
  }

  /**
   Exactly the grounded tasks finish: when the manager can take no more steps, a task is finished if
   and only if unrolling its dependencies ends; the others are still listed in `metadata`.
   */
  lemma FinishesIffGrounded(work: Work, run: seq<Label>, id: TaskId)
    requires Valid(work, INIT, run)
    requires Quiescent(Exec(work, INIT, run)) && id < |Exec(work, INIT, run).tasks|
    ensures var s := Exec(work, INIT, run);
            && (IsDone(s, id) <==> Resolvable(s.tasks, id, |s.tasks|))
            && (id in s.shared.metadata <==> !Resolvable(s.tasks, id, |s.tasks|))
  {
    var s := Exec(work, INIT, run);
    ReachableInv(work, run);
    assert TaskOk(work, s, id);
    QuiescentPhase(work, s, id);
    if IsDone(s, id) {
      DoneIsGrounded(work, s, id);
    } else if Resolvable(s.tasks, id, |s.tasks|) {
      GroundedFinishes(work, s, id, |s.tasks|);
    }
  }

  /** With dependencies on earlier tasks only, a manager that can take no more steps has no task left. */
  lemma OrderedRunsDrain(work: Work, run: seq<Label>)
    requires Valid(work, INIT, run)
    requires Quiescent(Exec(work, INIT, run)) && Ordered(Exec(work, INIT, run).tasks)
    ensures Exec(work, INIT, run).shared.metadata == map[]
    ensures forall id | 0 <= id < |Exec(work, INIT, run).tasks| :: IsDone(Exec(work, INIT, run), id)
  {
    var s := Exec(work, INIT, run);
    ReachableInv(work, run);
    forall id: nat | id < |s.tasks| ensures IsDone(s, id) && id !in s.shared.metadata {
      OrderedIsGrounded(s.tasks, id, |s.tasks|);
      FinishesIffGrounded(work, run, id);
    }
  }

  function Weight(p: Phase, epoch: nat): nat {
    match p
    case Allocated => 7
    case Stored => 6
    case Parked(e) => if e < epoch then 5 else 2
    case Checking => 4
    case Undecided => 3
    case Resolved(_) => 2
    case Running(_) => 1
    case Done(_, _, _) => 0
  }

  function Weights(phases: seq<Phase>, epoch: nat): nat {
    if phases == [] then 0
    else Weight(phases[0], epoch) + Weights(phases[1..], epoch)
  }

  function Unfinished(phases: seq<Phase>): nat {
    if phases == [] then 0
    else (if phases[0].Done? then 0 else 1) + Unfinished(phases[1..])
  }

  /** An upper bound on the number of steps the manager can still take by itself. */
  function Rank(s: State): nat {
    Unfinished(s.phases) * (7 * |s.phases| + 1) + Weights(s.phases, s.shared.epoch)
  }

  lemma {:induction false} WeightsBounded(phases: seq<Phase>, epoch: nat)
    ensures Weights(phases, epoch) <= 7 * |phases|
  {
    if phases != [] {
      WeightsBounded(phases[1..], epoch);
    }
  }

  lemma {:induction false} UpdatePhase(phases: seq<Phase>, i: nat, p: Phase, epoch: nat)
    requires i < |phases|
    ensures Weights(phases[i := p], epoch) + Weight(phases[i], epoch) == Weights(phases, epoch) + Weight(p, epoch)
    ensures Unfinished(phases[i := p]) + (if phases[i].Done? then 0 else 1)
            == Unfinished(phases) + (if p.Done? then 0 else 1)
  {
    if i == 0 {
      assert phases[0 := p][1..] == phases[1..];
    } else {
      assert phases[i := p][1..] == phases[1..][i - 1 := p];
      UpdatePhase(phases[1..], i - 1, p, epoch);
    }
  }

  lemma FewerUnfinished(u: nat, c: nat, before: nat, after: nat)
    requires u > 0 && after < c
    ensures (u - 1) * c + after < u * c + before
  {
    assert u * c == (u - 1) * c + c;
  }

  lemma StepLowersWeights(work: Work, s: State, l: Label)
    requires Inv(work, s) && Enabled(s, l) && Internal(l) && !l.Cancel? && !l.Finish?
    ensures var s' := Apply(work, s, l);
            && s'.shared.epoch == s.shared.epoch && Unfinished(s'.phases) == Unfinished(s.phases)
            && Weights(s'.phases, s.shared.epoch) < Weights(s.phases, s.shared.epoch)
  {
    UpdatePhase(s.phases, l.id, Apply(work, s, l).phases[l.id], s.shared.epoch);
  }

  lemma EndLowersUnfinished(work: Work, s: State, l: Label)
    requires Inv(work, s) && Enabled(s, l) && (l.Cancel? || l.Finish?)
    ensures var s' := Apply(work, s, l);
            && |s'.phases| == |s.phases| && Unfinished(s'.phases) + 1 == Unfinished(s.phases)
            && Weights(s'.phases, s'.shared.epoch) <= 7 * |s.phases|
  {
    var s' := Apply(work, s, l);
    UpdatePhase(s.phases, l.id, s'.phases[l.id], s.shared.epoch);
    WeightsBounded(s'.phases, s'.shared.epoch);
  }

  /** Every step of the manager lowers the rank. */
  lemma StepLowersRank(work: Work, s: State, l: Label)
    requires Inv(work, s) && Enabled(s, l) && Internal(l)
    ensures Rank(Apply(work, s, l)) < Rank(s)
  {
    var s' := Apply(work, s, l);
    if l.Cancel? || l.Finish? {
      EndLowersUnfinished(work, s, l);
      FewerUnfinished(Unfinished(s.phases), 7 * |s.phases| + 1,
                      Weights(s.phases, s.shared.epoch), Weights(s'.phases, s'.shared.epoch));
    } else {
      StepLowersWeights(work, s, l);
    }
  }

  /** So a run without new requests is never longer than the rank of the state it starts from. */
  lemma {:induction false} RunsTerminate(work: Work, s: State, run: seq<Label>)
    requires Inv(work, s) && Valid(work, s, run)
    requires forall l | l in run :: Internal(l)
    ensures |run| + Rank(Exec(work, s, run)) <= Rank(s)
    decreases run
  {
    if run != [] {
      StepLowersRank(work, s, run[0]);
      StepInv(work, s, run[0]);
      RunsTerminate(work, Apply(work, s, run[0]), run[1..]);
    }
  }

  /** A finished task reports the tasks still registered: those announced and alive, and those being stored. */
  lemma RemainingCounts(work: Work, run: seq<Label>, l: Label)
    requires Valid(work, INIT, run) && Enabled(Exec(work, INIT, run), l) && (l.Cancel? || l.Finish?)
    ensures var s' := Apply(work, Exec(work, INIT, run), l);
            var log := s'.shared.log;
            && |log| > 0 && log[|log| - 1].TaskFinished? && log[|log| - 1].task.id == l.id
            && log[|log| - 1].remaining
               == |set id: nat | id < |s'.tasks| && !s'.phases[id].Allocated? && !s'.phases[id].Done?|
  {
    ReachableInv(work, run);
    var s := Exec(work, INIT, run);
    StepInv(work, s, l);
    var s' := Apply(work, s, l);
    forall id: nat | id < |s'.tasks|
      ensures id in s'.shared.metadata <==> !s'.phases[id].Allocated? && !s'.phases[id].Done?
    {
      assert TaskOk(work, s', id);
    }
    assert s'.shared.metadata.Keys
        == set id: nat | id < |s'.tasks| && !s'.phases[id].Allocated? && !s'.phases[id].Done?;
  }
}
