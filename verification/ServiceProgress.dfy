/** The service left alone always comes to rest, and only where nothing is left to do. */
module ServiceProgress {
  import opened Events
  import opened Scheduler
  import opened SchedulerInvariant
  import opened SchedulerTheorems
  import opened Actions
  import opened Installation
  import opened InstallationTheorems

  /** What the service does by itself; the rest are requests from outside and events of others. */
  predicate ByItself(r: Request) {
    match r
    case SetConfig(_) => false
    case Install(_, _) => false
    case Spawn => true
    case SetFinalStage(_) => true
    case TaskStep(l) => Internal(l)
  }

  /** How often the last two tasks of an installation can still set the stage. */
  function UnsetStages(y: System): nat {
    match y.front.install
    case None => 2
    case Some(first) => (if first + 4 in y.staged then 0 else 1) + (if FinalizeId(first) in y.staged then 0 else 1)
  }

  function Waiting(y: System): nat {
    Unfinished(y.sched.phases) + |y.front.queue|
  }

  function MostWeight(y: System): nat {
    7 * (|y.sched.phases| + |y.front.queue|) + 1
  }

  /** An upper bound on what the service can still do by itself. */
  function ServiceRank(y: System): nat {
    Waiting(y) * MostWeight(y) + Weights(y.sched.phases, y.sched.shared.epoch) + 8 * |y.front.queue| + UnsetStages(y)
  }

  lemma {:induction false} PhaseAdded(phases: seq<Phase>, p: Phase, epoch: nat)
    ensures Weights(phases + [p], epoch) == Weights(phases, epoch) + Weight(p, epoch)
    ensures Unfinished(phases + [p]) == Unfinished(phases) + if p.Done? then 0 else 1
  {
    if phases == [] {
      assert [] + [p] == [p];
    } else {
      assert (phases + [p])[1..] == phases[1..] + [p];
      PhaseAdded(phases[1..], p, epoch);
    }
  }

  lemma SpawnLowersRank(work: Work, y: System)
    requires WellFormed(y) && Possible(y, Spawn)
    ensures ServiceRank(Perform(work, y, Spawn)) < ServiceRank(y)
  {
    var y' := Perform(work, y, Spawn);
    PhaseAdded(y.sched.phases, Allocated, y.sched.shared.epoch);
    assert Waiting(y') == Waiting(y) && MostWeight(y') == MostWeight(y);
  }

  lemma StageLowersRank(work: Work, y: System, id: TaskId)
    requires WellFormed(y) && Possible(y, SetFinalStage(id))
    ensures ServiceRank(Perform(work, y, SetFinalStage(id))) < ServiceRank(y)
  {
    var y' := Perform(work, y, SetFinalStage(id));
    assert UnsetStages(y') < UnsetStages(y);
    assert Waiting(y') == Waiting(y) && MostWeight(y') == MostWeight(y);
  }

  lemma FewerTasksLowerRank(y: System, y': System)
    requires y'.front == y.front && y'.staged == y.staged && |y'.sched.phases| == |y.sched.phases|
    requires var (a, b) := (y.sched, y'.sched);
             || (Unfinished(b.phases) + 1 == Unfinished(a.phases)
                 && Weights(b.phases, b.shared.epoch) <= 7 * |a.phases|)
             || (Unfinished(b.phases) == Unfinished(a.phases)
                 && Weights(b.phases, b.shared.epoch) < Weights(a.phases, a.shared.epoch))
    ensures ServiceRank(y') < ServiceRank(y)
  {
    if Unfinished(y'.sched.phases) < Unfinished(y.sched.phases) {
      FewerUnfinished(Waiting(y), MostWeight(y), Weights(y.sched.phases, y.sched.shared.epoch),
                      Weights(y'.sched.phases, y'.sched.shared.epoch));
    }
  }

  lemma TaskLowersRank(work: Work, y: System, l: Label)
    requires Inv(work, y.sched) && WellFormed(y) && Possible(y, TaskStep(l)) && Internal(l)
    ensures ServiceRank(Perform(work, y, TaskStep(l))) < ServiceRank(y)
  {
    if l.Cancel? || l.Finish? {
      EndLowersUnfinished(work, y.sched, l);
    } else {
      StepLowersWeights(work, y.sched, l);
    }
    FewerTasksLowerRank(y, Perform(work, y, TaskStep(l)));
  }

  /** Whatever the service does by itself lowers the rank. */
  lemma OwnStepLowersRank(work: Work, y: System, r: Request)
    requires SystemInv(work, y) && Possible(y, r) && ByItself(r)
    ensures ServiceRank(Perform(work, y, r)) < ServiceRank(y)
  {
    match r
    case Spawn => SpawnLowersRank(work, y);
    case SetFinalStage(id) => StageLowersRank(work, y, id);
    case TaskStep(l) => TaskLowersRank(work, y, l);
  }

  /** So the service left alone does at most that much ... */
  lemma {:induction false} ServiceTerminates(work: Work, y: System, run: seq<Request>)
    requires SystemInv(work, y) && ValidRun(work, y, run)
    requires forall r | r in run :: ByItself(r)
    ensures |run| + ServiceRank(ExecRun(work, y, run)) <= ServiceRank(y)
    decreases run
  {
    if run != [] {
      OwnStepLowersRank(work, y, run[0]);
      StepSystem(work, y, run[0]);
      ServiceTerminates(work, Perform(work, y, run[0]), run[1..]);
    }
  }

  /** ... and it always can go on until it has settled. */
  lemma {:induction false} ServiceSettles(work: Work, y: System) returns (run: seq<Request>)
    requires SystemInv(work, y)
    ensures ValidRun(work, y, run) && (forall r | r in run :: ByItself(r)) && Settled(ExecRun(work, y, run))
    decreases ServiceRank(y)
  {
    if r :| Possible(y, r) && ByItself(r) {
      OwnStepLowersRank(work, y, r);
      StepSystem(work, y, r);
      var rest := ServiceSettles(work, Perform(work, y, r));
      run := [r] + rest;
      assert run[1..] == rest;
    } else {
      run := [];
      assert forall l | Internal(l) :: ByItself(TaskStep(l));
      assert ByItself(Spawn) && forall id: TaskId :: ByItself(SetFinalStage(id));
    }
  }
}
