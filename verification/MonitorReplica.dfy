/**
 The replica of the task list. A monitor subscribes, takes a snapshot of the manager's tasks later,
 and applies all events since the subscription, also those the snapshot already reflects.
 */
module MonitorReplica {
  import opened Events
  import opened TaskManagement
  import opened Scheduler
  import opened SchedulerInvariant
  import opened Monitoring

  function Replay(tasks: seq<TaskInfo>, log: seq<Event>): seq<TaskInfo> {
    if log == [] then tasks
    else TrackTask(Replay(tasks, log[..|log| - 1]), log[|log| - 1])
  }

  /** The monitor's task list is the replay of the events it received, whatever HTTP answers. */
  lemma {:induction false} FollowReplays(s: Status, feed: seq<(Received, Answers)>, log: seq<Event>)
    requires |feed| == |log| && forall k | 0 <= k < |feed| :: feed[k].0 == Delivered(log[k])
    ensures Follow(s, feed).tasks == Replay(s.tasks, log)
  {
    if feed != [] {
      FollowReplays(s, feed[..|feed| - 1], log[..|log| - 1]);
    }
  }

  predicate Distinct(tasks: seq<TaskInfo>) {
    forall i, j | 0 <= i < j < |tasks| :: tasks[i].id != tasks[j].id
  }

  lemma {:induction false} WithoutKeepsDistinct(tasks: seq<TaskInfo>, id: TaskId)
    requires Distinct(tasks)
    ensures Distinct(WithoutTask(tasks, id))
  {
    if tasks != [] {
      WithoutKeepsDistinct(tasks[1..], id);
      forall t | t in WithoutTask(tasks[1..], id) ensures t.id != tasks[0].id {
        assert t in tasks[1..];
      }
    }
  }

  lemma {:induction false} ReplayKeepsDistinct(tasks: seq<TaskInfo>, log: seq<Event>)
    requires Distinct(tasks)
    ensures Distinct(Replay(tasks, log))
  {
    if log != [] {
      var before := Replay(tasks, log[..|log| - 1]);
      ReplayKeepsDistinct(tasks, log[..|log| - 1]);
      if log[|log| - 1].TaskFinished? {
        WithoutKeepsDistinct(before, log[|log| - 1].task.id);
      }
    }
  }

  /** Where the entries come from. */
  lemma {:induction false} ReplaySource(tasks: seq<TaskInfo>, log: seq<Event>, t: TaskInfo)
    requires t in Replay(tasks, log)
    ensures t in tasks || exists k | 0 <= k < |log| :: log[k] == TaskStarted(t)
  {
    if log != [] {
      if t in Replay(tasks, log[..|log| - 1]) {
        ReplaySource(tasks, log[..|log| - 1], t);
        if t !in tasks {
          var k :| 0 <= k < |log| - 1 && log[..|log| - 1][k] == TaskStarted(t);
          assert log[k] == TaskStarted(t);
        }
      } else {
        assert log[|log| - 1] == TaskStarted(t);
      }
    }
  }

  /** The kinds of a task can only end with Finished. */
  predicate FinishedOnlyLast(kinds: seq<Kind>) {
    forall i | 0 <= i < |kinds| - 1 :: kinds[i] != WasFinished
  }

  lemma {:induction false} ReplayHas(tasks: seq<TaskInfo>, log: seq<Event>, id: TaskId)
    requires FinishedOnlyLast(Kinds(log, id))
    ensures HasTask(Replay(tasks, log), id)
       <==> WasFinished !in Kinds(log, id) && (HasTask(tasks, id) || WasStarted in Kinds(log, id))
  {
    if log != [] {
      var e, before := log[|log| - 1], log[..|log| - 1];
      var kinds := Kinds(before, id);
      assert forall i | 0 <= i < |kinds| :: Kinds(log, id)[i] == kinds[i];
      ReplayHas(tasks, before, id);
      var list := Replay(tasks, before);
      if e.TaskStarted? {
        if !HasTask(list, e.task.id) {
          assert (list + [e.task])[|list|] == e.task;
        }
        assert HasTask(list + [e.task], id) <==> HasTask(list, id) || e.task.id == id;
      }
    }
  }

  lemma {:induction false} KindsSplit(log: seq<Event>, n: nat, id: TaskId)
    requires n <= |log|
    ensures Kinds(log, id) == Kinds(log[..n], id) + Kinds(log[n..], id)
  {
    if n < |log| {
      var last := |log| - 1;
      KindsSplit(log[..last], n, id);
      assert log[..last][..n] == log[..n];
      assert log[n..][..last - n] == log[..last][n..];
    } else {
      assert log[..n] == log;
    }
  }

  /** Logs and tasks only grow, and a registered or finished task stays registered or finished. */
  ghost predicate Grows(s: State, u: State, id: TaskId) {
    && s.shared.log <= u.shared.log && s.tasks <= u.tasks
    && (IsDone(s, id) ==> IsDone(u, id))
    && (id in s.shared.metadata ==> id in u.shared.metadata || IsDone(u, id))
  }

  lemma {:induction false} RunGrows(work: Work, s: State, run: seq<Label>, id: TaskId)
    requires Inv(work, s) && Valid(work, s, run)
    ensures Grows(s, Exec(work, s, run), id)
    decreases run
  {
    if run != [] {
      StepInv(work, s, run[0]);
      RunGrows(work, Apply(work, s, run[0]), run[1..], id);
    }
  }

  lemma KindsOfTask(work: Work, s: State, id: TaskId)
    requires Inv(work, s)
    ensures id < |s.tasks| ==> TaskOk(work, s, id)
    ensures Kinds(s.shared.log, id) == if id < |s.tasks| then KindsIn(s.phases[id]) else []
  {
    if id < |s.tasks| {
      assert TaskOk(work, s, id);
    } else {
      forall i | 0 <= i < |s.shared.log| ensures IsTaskEvent(s.shared.log[i]) ==> s.shared.log[i].task.id < |s.tasks| {
        assert EventOk(s.tasks, s.shared.log, i);
      }
      NoNewKinds(s.tasks, s.shared.log, id);
    }
  }

  predicate IsRunning(s: State, id: TaskId) {
    id < |s.phases| && s.phases[id].Running?
  }

  /** A history cut in two: nothing follows Finished. */
  lemma HistoryCut(whole: seq<Kind>, early: seq<Kind>, late: seq<Kind>, p: Phase)
    requires whole == early + late && (whole == KindsIn(p) || whole == [])
    ensures FinishedOnlyLast(late)
    ensures forall k :: k in whole <==> k in early || k in late
    ensures WasFinished in early ==> late == []
  {
    assert forall i | 0 <= i < |late| :: late[i] == whole[|early| + i];
    assert forall i | 0 <= i < |early| :: early[i] == whole[i];
  }

  function PhaseOf(s: State, id: TaskId): Phase
    requires |s.phases| == |s.tasks|
  {
    if id < |s.tasks| then s.phases[id] else Allocated
  }

  lemma KindsMean(p: Phase)
    ensures WasFinished in KindsIn(p) <==> p.Done?
    ensures WasStarted in KindsIn(p) <==> p.Running? || (p.Done? && p.ran)
  {
  }

  /** The log of a state, cut at `from`, cuts the history of a task in two. */
  lemma CutHistory(work: Work, s: State, from: nat, id: TaskId)
    requires Inv(work, s) && from <= |s.shared.log|
    ensures var p, early, late := PhaseOf(s, id), Kinds(s.shared.log[..from], id), Kinds(s.shared.log[from..], id);
            && FinishedOnlyLast(late)
            && (WasFinished in early || WasFinished in late <==> p.Done?)
            && (WasStarted in early || WasStarted in late <==> p.Running? || (p.Done? && p.ran))
            && (WasFinished in early ==> late == [])
  {
    KindsOfTask(work, s, id);
    KindsSplit(s.shared.log, from, id);
    HistoryCut(Kinds(s.shared.log, id), Kinds(s.shared.log[..from], id), Kinds(s.shared.log[from..], id),
               PhaseOf(s, id));
    KindsMean(PhaseOf(s, id));
  }

  /** Which tasks the replica lists: those alive that the snapshot had, and those running. */
  lemma ReplicaMembers(work: Work, t: State, run: seq<Label>, from: nat, snapshot: seq<TaskInfo>, id: TaskId)
    requires Inv(work, t) && Valid(work, t, run)
    requires from <= |t.shared.log| && Lists(snapshot, t.shared.metadata)
    ensures from <= |Exec(work, t, run).shared.log|
    ensures var u := Exec(work, t, run);
            HasTask(Replay(snapshot, u.shared.log[from..]), id)
            <==> id in u.shared.metadata && (id in t.shared.metadata || IsRunning(u, id))
  {
    var u := Exec(work, t, run);
    RunInv(work, t, run);
    RunGrows(work, t, run, id);
    SnapshotHas(work, t, snapshot, id);
    MembersAt(work, t, u, from, snapshot, id);
  }

  lemma Registered(work: Work, s: State, id: TaskId)
    requires Inv(work, s)
    ensures id in s.shared.metadata <==> id < |s.tasks| && !s.phases[id].Allocated? && !s.phases[id].Done?
    ensures IsDone(s, id) <==> id < |s.tasks| && s.phases[id].Done?
  {
    if id < |s.tasks| {
      assert TaskOk(work, s, id);
    }
  }

  lemma MembersAt(work: Work, t: State, u: State, from: nat, snapshot: seq<TaskInfo>, id: TaskId)
    requires Inv(work, t) && Inv(work, u) && Grows(t, u, id)
    requires from <= |t.shared.log| && (HasTask(snapshot, id) <==> id in t.shared.metadata)
    ensures HasTask(Replay(snapshot, u.shared.log[from..]), id)
            <==> id in u.shared.metadata && (id in t.shared.metadata || IsRunning(u, id))
  {
    Registered(work, t, id);
    Registered(work, u, id);
    assert u.shared.log[..from] == t.shared.log[..from];
    CutHistory(work, t, from, id);
    CutHistory(work, u, from, id);
    ReplayHas(snapshot, u.shared.log[from..], id);
  }

  lemma SnapshotHas(work: Work, t: State, snapshot: seq<TaskInfo>, id: TaskId)
    requires Inv(work, t) && Lists(snapshot, t.shared.metadata)
    ensures HasTask(snapshot, id) <==> id in t.shared.metadata
  {
    if id in t.shared.metadata {
      assert TaskOk(work, t, id);
      assert t.shared.metadata[id] in snapshot;
    }
  }

  /**
   Convergence: at any later time the replica lists no task twice, lists only tasks that the manager
   still has, with their descriptions, and lists every running one. More precisely, a task the manager
   still has is missing exactly if it was registered after the snapshot and has not started yet.
   */
  lemma ReplicaConverges(work: Work, before: seq<Label>, after: seq<Label>, from: nat, snapshot: seq<TaskInfo>)
    requires Valid(work, INIT, before) && Valid(work, Exec(work, INIT, before), after)
    requires from <= |Exec(work, INIT, before).shared.log|
    requires Lists(snapshot, Exec(work, INIT, before).shared.metadata)
    ensures var t := Exec(work, INIT, before);
            var u := Exec(work, t, after);
            && from <= |u.shared.log|
            && var replica := Replay(snapshot, u.shared.log[from..]);
            && Distinct(replica)
            && (forall task | task in replica :: task.id in u.shared.metadata && u.shared.metadata[task.id] == task)
            && (forall id: TaskId | IsRunning(u, id) :: HasTask(replica, id))
            && (forall id | id in u.shared.metadata ::
                  HasTask(replica, id) <==> id in t.shared.metadata || IsRunning(u, id))
  {
    var t := Exec(work, INIT, before);
    var u := Exec(work, t, after);
    ReachableInv(work, before);
    RunInv(work, t, after);
    RunGrows(work, t, after, 0);
    var replica := Replay(snapshot, u.shared.log[from..]);
    ReplayKeepsDistinct(snapshot, u.shared.log[from..]);
    forall id: TaskId
      ensures HasTask(replica, id) <==> id in u.shared.metadata && (id in t.shared.metadata || IsRunning(u, id))
    {
      ReplicaMembers(work, t, after, from, snapshot, id);
    }
    forall id: TaskId | IsRunning(u, id) ensures HasTask(replica, id) {
      assert TaskOk(work, u, id);
    }
    forall task | task in replica ensures task.id in u.shared.metadata && u.shared.metadata[task.id] == task {
      assert HasTask(replica, task.id);
      ReplicaDescription(work, t, after, from, snapshot, task);
    }
  }

  lemma ReplicaDescription(work: Work, t: State, run: seq<Label>, from: nat, snapshot: seq<TaskInfo>, task: TaskInfo)
    requires Inv(work, t) && Valid(work, t, run)
    requires from <= |t.shared.log| && Lists(snapshot, t.shared.metadata)
    requires from <= |Exec(work, t, run).shared.log|
    requires task in Replay(snapshot, Exec(work, t, run).shared.log[from..])
    requires task.id in Exec(work, t, run).shared.metadata
    ensures Exec(work, t, run).shared.metadata[task.id] == task
  {
    var u := Exec(work, t, run);
    RunInv(work, t, run);
    RunGrows(work, t, run, task.id);
    assert TaskOk(work, u, task.id);
    ReplaySource(snapshot, u.shared.log[from..], task);
    if task in snapshot {
      assert TaskOk(work, t, task.id);
    } else {
      var k :| 0 <= k < |u.shared.log[from..]| && u.shared.log[from..][k] == TaskStarted(task);
      assert EventOk(u.tasks, u.shared.log, from + k);
    }
  }
}
