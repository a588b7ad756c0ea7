/** What every step of every run keeps. */
module SchedulerInvariant {
  import opened Events
  import opened TaskManagement
  import opened Scheduler

  /** The events a task has sent when it is in a phase: added, then started if it ran, then finished. */
  function KindsIn(p: Phase): seq<Kind> {
    match p
    case Allocated | Stored => []
    case Checking | Undecided | Parked(_) | Resolved(_) => [WasAdded]
    case Running(_) => [WasAdded, WasStarted]
    case Done(_, ran, _) => if ran then [WasAdded, WasStarted, WasFinished] else [WasAdded, WasFinished]
  }

  predicate Decided(p: Phase) {
    p.Resolved? || p.Running? || p.Done?
  }

  ghost predicate ShapeOk(s: State) {
    && |s.tasks| == |s.phases| == s.shared.nextId
    && (forall id | id in s.shared.metadata :: id < |s.tasks|)
    && (forall id | id in s.shared.succeeded :: id < |s.tasks|)
    && (forall id | id in s.shared.failed :: id < |s.tasks|)
  }

  ghost predicate TaskOk(work: Work, s: State, id: TaskId)
    requires ShapeOk(s) && id < |s.tasks|
  {
    var sh, t, p := s.shared, s.tasks[id], s.phases[id];
    && (id in sh.metadata <==> !p.Allocated? && !p.Done?)
    && (id in sh.metadata ==> sh.metadata[id] == Info(id, t))
    && (id in sh.succeeded <==> p.Done? && p.ok)
    && (id in sh.failed <==> p.Done? && !p.ok)
    && Kinds(sh.log, id) == KindsIn(p)
    && (p.Undecided? ==> !AllDone(sh, t.deps))
    && (p.Parked? ==> p.epoch <= sh.epoch && (AllDone(sh, t.deps) ==> p.epoch < sh.epoch))
    && (Decided(p) ==> AllDone(sh, t.deps) && p.failedDeps == FailedAmong(sh.failed, t.deps))
    && (p.Running? ==> !Cancelled(t, p.failedDeps))
    && (p.Done? ==> p.ran == !Cancelled(t, p.failedDeps) && p.ok == (p.ran && work(id, p.failedDeps)))
  }

  /** A task event describes an existing task; a task that starts has seen all its dependencies finish. */
  ghost predicate EventOk(tasks: seq<Task>, log: seq<Event>, i: nat)
    requires i < |log|
  {
    var e := log[i];
    IsTaskEvent(e) ==>
      && e.task.id < |tasks|
      && e.task == Info(e.task.id, tasks[e.task.id])
      && (e.TaskStarted? ==> forall d | d in tasks[e.task.id].deps :: WasFinished in Kinds(log[..i], d))
  }

  ghost predicate LogOk(s: State) {
    forall i | 0 <= i < |s.shared.log| :: EventOk(s.tasks, s.shared.log, i)
  }

  function FinishedCount(s: Shared): nat {
    |s.succeeded| + |s.failed|
  }

  /** The dependencies of finished tasks are grounded, no deeper than the number of finished tasks. */
  ghost predicate GroundedOk(s: State) {
    forall id | id in s.shared.succeeded || id in s.shared.failed ::
      Resolvable(s.tasks, id, FinishedCount(s.shared))
  }

  ghost predicate Inv(work: Work, s: State) {
    && ShapeOk(s)
    && (forall id: TaskId | id < |s.tasks| :: TaskOk(work, s, id))
    && LogOk(s)
    && GroundedOk(s)
  }

  lemma {:induction false} FailedAmongAgrees(a: set<TaskId>, b: set<TaskId>, deps: seq<TaskId>)
    requires forall d | d in deps :: d in a <==> d in b
    ensures FailedAmong(a, deps) == FailedAmong(b, deps)
  {
    if deps != [] {
      FailedAmongAgrees(a, b, deps[1..]);
    }
  }

  lemma KindsSend(log: seq<Event>, e: Event, id: TaskId)
    ensures !IsTaskEvent(e) || e.task.id != id ==> Kinds(log + [e], id) == Kinds(log, id)
    ensures IsTaskEvent(e) && e.task.id == id ==>
              Kinds(log + [e], id) == Kinds(log, id) +
                [if e.TaskAdded? then WasAdded else if e.TaskStarted? then WasStarted else WasFinished]
  {
    assert (log + [e])[..|log|] == log;
  }

  /** The shared state changes for one task at most, and finishing a task raises the epoch. */
  ghost predicate Touches(s: State, s': State, id: TaskId) {
    var a, b := s.shared, s'.shared;
    && a.epoch <= b.epoch
    && (forall j | j != id :: j in a.metadata <==> j in b.metadata)
    && (forall j | j != id && j in a.metadata :: a.metadata[j] == b.metadata[j])
    && (forall j | j != id :: (j in a.succeeded <==> j in b.succeeded) && (j in a.failed <==> j in b.failed))
    && (forall j | j != id :: Kinds(b.log, j) == Kinds(a.log, j))
    && ((a.succeeded == b.succeeded && a.failed == b.failed)
        || (a.epoch < b.epoch && WriteFree(s) && id !in a.succeeded && id !in a.failed))
  }

  lemma OthersKeep(work: Work, s: State, s': State, id: TaskId, j: TaskId)
    requires ShapeOk(s) && ShapeOk(s') && j < |s.tasks| && j < |s'.tasks| && j != id
    requires s.tasks[j] == s'.tasks[j] && s.phases[j] == s'.phases[j]
    requires TaskOk(work, s, j) && Touches(s, s', id)
    ensures TaskOk(work, s', j)
  {
    if Decided(s.phases[j]) {
      FailedAmongAgrees(s.shared.failed, s'.shared.failed, s.tasks[j].deps);
    }
  }

  /** The task a step is about. */
  function Subject(s: State, l: Label): TaskId {
    match l
    case Allocate(_) => |s.tasks|
    case Emit(_) => |s.tasks|
    case StoreTask(id) => id
    case Announce(id) => id
    case Check(id) => id
    case Park(id) => id
    case Wake(id) => id
    case Cancel(id) => id
    case Start(id) => id
    case Finish(id) => id
  }

  lemma StepTouches(work: Work, s: State, l: Label)
    requires ShapeOk(s) && Enabled(s, l)
    requires l.Cancel? || l.Finish? ==> TaskOk(work, s, l.id)
    ensures Touches(s, Apply(work, s, l), Subject(s, l))
  {
    var s' := Apply(work, s, l);
    if s'.shared.log != s.shared.log {
      var e := s'.shared.log[|s.shared.log|];
      assert s'.shared.log == s.shared.log + [e];
      forall j | j != Subject(s, l) ensures Kinds(s'.shared.log, j) == Kinds(s.shared.log, j) {
        KindsSend(s.shared.log, e, j);
      }
    }
  }

  lemma {:induction false} NoNewKinds(tasks: seq<Task>, log: seq<Event>, id: TaskId)
    requires forall i | 0 <= i < |log| :: IsTaskEvent(log[i]) ==> log[i].task.id < |tasks|
    requires id >= |tasks|
    ensures Kinds(log, id) == []
  {
    if log != [] {
      NoNewKinds(tasks, log[..|log| - 1], id);
    }
  }

  lemma AllocateSubject(work: Work, s: State, task: Task)
    requires Inv(work, s) && Enabled(s, Allocate(task))
    ensures TaskOk(work, Apply(work, s, Allocate(task)), |s.tasks|)
  {
    forall i | 0 <= i < |s.shared.log| ensures IsTaskEvent(s.shared.log[i]) ==> s.shared.log[i].task.id < |s.tasks| {
      assert EventOk(s.tasks, s.shared.log, i);
    }
    NoNewKinds(s.tasks, s.shared.log, |s.tasks|);
  }

  lemma CompleteSubject(work: Work, s: State, s': State, id: TaskId, ran: bool, ok: bool)
    requires ShapeOk(s) && ShapeOk(s') && id < |s.tasks| && TaskOk(work, s, id)
    requires if ran then s.phases[id].Running? else s.phases[id].Resolved?
    requires var deps := s.phases[id].failedDeps;
             && ran == !Cancelled(s.tasks[id], deps) && ok == (ran && work(id, deps))
             && s' == Move(s, id, Done(deps, ran, ok), Complete(s.shared, InfoOf(s, id), ok))
    ensures TaskOk(work, s', id)
  {
    KindsSend(s.shared.log, s'.shared.log[|s.shared.log|], id);
    FailedAmongAgrees(s.shared.failed, s'.shared.failed, s.tasks[id].deps);
  }

  lemma SendSubject(work: Work, s: State, s': State, id: TaskId, e: Event, p: Phase)
    requires ShapeOk(s) && ShapeOk(s') && id < |s.tasks| && TaskOk(work, s, id)
    requires s' == Move(s, id, p, Send(s.shared, e)) && IsTaskEvent(e) && e.task.id == id
    requires || (s.phases[id].Stored? && p.Checking? && e.TaskAdded?)
             || (s.phases[id].Resolved? && p == Running(s.phases[id].failedDeps) && e.TaskStarted?
                 && !Cancelled(s.tasks[id], p.failedDeps))
    ensures TaskOk(work, s', id)
  {
    KindsSend(s.shared.log, e, id);
  }

  lemma QuietSubject(work: Work, s: State, l: Label, s': State)
    requires ShapeOk(s) && ShapeOk(s') && Enabled(s, l) && s' == Apply(work, s, l)
    requires (l.Check? || l.Park? || l.Wake? || l.StoreTask?) && TaskOk(work, s, l.id)
    ensures TaskOk(work, s', l.id)
  {
  }

  lemma StepSubject(work: Work, s: State, l: Label, s': State)
    requires ShapeOk(s) && ShapeOk(s') && Enabled(s, l) && s' == Apply(work, s, l)
    requires !l.Emit? && !l.Allocate? && TaskOk(work, s, l.id)
    ensures TaskOk(work, s', l.id)
  {
    var id, p := l.id, s.phases[l.id];
    match l
    case Cancel(_) => CompleteSubject(work, s, s', id, false, false);
    case Finish(_) => CompleteSubject(work, s, s', id, true, work(id, p.failedDeps));
    case Announce(_) => SendSubject(work, s, s', id, TaskAdded(InfoOf(s, id)), Checking);
    case Start(_) => SendSubject(work, s, s', id, TaskStarted(InfoOf(s, id)), Running(p.failedDeps));
    case _ => QuietSubject(work, s, l, s');
  }

  lemma StepTasks(work: Work, s: State, l: Label, j: TaskId)
    requires Inv(work, s) && Enabled(s, l) && j < |Apply(work, s, l).tasks|
    ensures TaskOk(work, Apply(work, s, l), j)
  {
    var s' := Apply(work, s, l);
    if !l.Allocate? && !l.Emit? {
      assert TaskOk(work, s, l.id);
    }
    StepTouches(work, s, l);
    if l.Allocate? && j == |s.tasks| {
      AllocateSubject(work, s, l.task);
    } else if j == Subject(s, l) {
      StepSubject(work, s, l, s');
    } else {
      OthersKeep(work, s, s', Subject(s, l), j);
    }
  }

  lemma OldEvent(tasks: seq<Task>, more: seq<Task>, a: seq<Event>, b: seq<Event>, i: nat)
    requires i < |a| <= |b| && b[..|a|] == a && EventOk(tasks, a, i) && tasks <= more
    ensures EventOk(more, b, i)
  {
    assert b[i] == a[i] && b[..i] == a[..i];
  }

  lemma NewEvent(work: Work, s: State, l: Label)
    requires Inv(work, s) && Enabled(s, l)
    ensures var s' := Apply(work, s, l);
            |s'.shared.log| > |s.shared.log| ==> EventOk(s'.tasks, s'.shared.log, |s.shared.log|)
  {
    if l.Start? {
      assert TaskOk(work, s, l.id);
      forall d | d in s.tasks[l.id].deps ensures WasFinished in Kinds(s.shared.log, d) {
        assert TaskOk(work, s, d);
      }
    }
  }

  lemma StepLog(work: Work, s: State, l: Label)
    requires Inv(work, s) && Enabled(s, l)
    ensures LogOk(Apply(work, s, l))
  {
    var s' := Apply(work, s, l);
    NewEvent(work, s, l);
    forall i: nat | i < |s'.shared.log| ensures EventOk(s'.tasks, s'.shared.log, i) {
      if i < |s.shared.log| {
        OldEvent(s.tasks, s'.tasks, s.shared.log, s'.shared.log, i);
      }
    }
  }

  lemma {:induction false} ResolvableGrows(tasks: seq<Task>, more: seq<Task>, id: TaskId, k: nat, k': nat)
    requires Resolvable(tasks, id, k) && k <= k'
    ensures Resolvable(tasks + more, id, k')
    decreases k
  {
    forall d | d in tasks[id].deps ensures Resolvable(tasks + more, d, k' - 1) {
      ResolvableGrows(tasks, more, d, k - 1, k' - 1);
    }
  }

  predicate IsDone(s: State, id: TaskId) {
    id in s.shared.succeeded || id in s.shared.failed
  }

  /** A step finishes one task at most, whose dependencies are finished already. */
  lemma StepFinishes(work: Work, s: State, l: Label)
    requires Inv(work, s) && Enabled(s, l)
    ensures var s' := Apply(work, s, l);
            && s.tasks <= s'.tasks
            && FinishedCount(s.shared) <= FinishedCount(s'.shared)
            && (l.Cancel? || l.Finish? ==>
                  && FinishedCount(s'.shared) == FinishedCount(s.shared) + 1 && s'.tasks == s.tasks
                  && l.id < |s.tasks| && AllDone(s.shared, s.tasks[l.id].deps))
            && (forall id: TaskId | IsDone(s', id) ::
                  IsDone(s, id) || ((l.Cancel? || l.Finish?) && id == l.id))
  {
    if l.Cancel? || l.Finish? {
      assert TaskOk(work, s, l.id);
    }
  }

  lemma GroundedAt(s: State, s': State, id: TaskId)
    requires GroundedOk(s) && s.tasks <= s'.tasks && FinishedCount(s.shared) <= FinishedCount(s'.shared)
    requires || IsDone(s, id)
             || (id < |s.tasks| && AllDone(s.shared, s.tasks[id].deps)
                 && FinishedCount(s.shared) < FinishedCount(s'.shared) && s'.tasks == s.tasks)
    ensures Resolvable(s'.tasks, id, FinishedCount(s'.shared))
  {
    var n, m := FinishedCount(s.shared), FinishedCount(s'.shared);
    var more := s'.tasks[|s.tasks|..];
    assert s'.tasks == s.tasks + more;
    if IsDone(s, id) {
      ResolvableGrows(s.tasks, more, id, n, m);
    } else {
      forall d | d in s.tasks[id].deps ensures Resolvable(s'.tasks, d, m - 1) {
        ResolvableGrows(s.tasks, more, d, n, m - 1);
      }
    }
  }

  lemma StepGrounded(work: Work, s: State, l: Label)
    requires Inv(work, s) && Enabled(s, l)
    ensures GroundedOk(Apply(work, s, l))
  {
    var s' := Apply(work, s, l);
    StepFinishes(work, s, l);
    forall id: TaskId | IsDone(s', id) ensures Resolvable(s'.tasks, id, FinishedCount(s'.shared)) {
      GroundedAt(s, s', id);
    }
  }

  /** Every step keeps the invariant. */
  lemma StepInv(work: Work, s: State, l: Label)
    requires Inv(work, s) && Enabled(s, l)
    ensures Inv(work, Apply(work, s, l))
  {
    forall j: TaskId | j < |Apply(work, s, l).tasks| ensures TaskOk(work, Apply(work, s, l), j) {
      StepTasks(work, s, l, j);
    }
    StepLog(work, s, l);
    StepGrounded(work, s, l);
  }

  lemma {:induction false} RunInv(work: Work, s: State, run: seq<Label>)
    requires Inv(work, s) && Valid(work, s, run)
    ensures Inv(work, Exec(work, s, run))
    decreases run
  {
    if run != [] {
      StepInv(work, s, run[0]);
      RunInv(work, Apply(work, s, run[0]), run[1..]);
    }
  }

  /** The invariant holds at the end of every run. */
  lemma ReachableInv(work: Work, run: seq<Label>)
    requires Valid(work, INIT, run)
    ensures Inv(work, Exec(work, INIT, run))
  {
    RunInv(work, INIT, run);
  }
}
