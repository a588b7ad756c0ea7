/** The order in which the tasks of a configuration change can start, whatever else is running. */
module ConfigurationOrder {
  import opened Events
  import opened Scheduler
  import opened SchedulerInvariant
  import opened SchedulerTheorems
  import opened Actions

  /** Task `x` waits, directly or through other tasks, for the success of `a`. */
  predicate Needs(tasks: seq<Task>, x: TaskId, a: TaskId, depth: nat)
    decreases depth
  {
    && depth > 0 && x < |tasks| && !tasks[x].runAlways
    && (a in tasks[x].deps || exists d | d in tasks[x].deps :: Needs(tasks, d, a, depth - 1))
  }

  /** `a` succeeded, and its end was announced before position `i` of the log. */
  predicate SucceededBefore(s: State, a: TaskId, i: nat)
    requires i <= |s.shared.log|
  {
    && a in s.shared.succeeded
    && exists j | 0 <= j < i :: s.shared.log[j].TaskFinished? && s.shared.log[j].task.id == a
  }

  /** The graph occupies consecutive ids from `first` on. */
  predicate Placed(tasks: seq<Task>, first: TaskId, graph: seq<Task>) {
    first + |graph| <= |tasks| && forall k | 0 <= k < |graph| :: tasks[first + k] == graph[k]
  }

  /** The same for the tasks of the graph that exist already. */
  predicate PlacedSoFar(tasks: seq<Task>, first: TaskId, graph: seq<Task>) {
    forall k | 0 <= k < |graph| && first + k < |tasks| :: tasks[first + k] == graph[k]
  }

  lemma {:induction false} KindsPrefix(log: seq<Event>, n: nat, id: TaskId)
    requires n <= |log|
    ensures Kinds(log[..n], id) <= Kinds(log, id)
  {
    if n < |log| {
      KindsPrefix(log[..|log| - 1], n, id);
      assert log[..|log| - 1][..n] == log[..n];
    } else {
      assert log[..n] == log;
    }
  }

  /** A task that succeeded was started before its end was announced. */
  lemma SuccessWasStarted(work: Work, s: State, j: nat)
    requires Inv(work, s) && j < |s.shared.log| && s.shared.log[j].TaskFinished?
    requires s.shared.log[j].task.id in s.shared.succeeded
    ensures exists k | 0 <= k < j ::
              s.shared.log[k].TaskStarted? && s.shared.log[k].task.id == s.shared.log[j].task.id
  {
    var log, id := s.shared.log, s.shared.log[j].task.id;
    assert TaskOk(work, s, id);
    KindsSend(log[..j], log[j], id);
    assert log[..j] + [log[j]] == log[..j + 1];
    KindsPrefix(log, j + 1, id);
    var before, all := Kinds(log[..j], id), [WasAdded, WasStarted, WasFinished];
    assert (before + [WasFinished])[|before|] == all[|before|];
    assert before[1] == (before + [WasFinished])[1] == all[1];
    KindSource(log[..j], id, WasStarted);
  }

  lemma {:induction false} NeededSucceedFirst(work: Work, run: seq<Label>, i: nat, a: TaskId, depth: nat)
    requires Valid(work, INIT, run)
    requires var s := Exec(work, INIT, run);
             i < |s.shared.log| && s.shared.log[i].TaskStarted?
             && Needs(s.tasks, s.shared.log[i].task.id, a, depth)
    ensures SucceededBefore(Exec(work, INIT, run), a, i)
    decreases depth
  {
    var s := Exec(work, INIT, run);
    var x := s.shared.log[i].task.id;
    ReachableInv(work, run);
    if a in s.tasks[x].deps {
      StartsAfterDependencies(work, run, i, a);
    } else {
      var d :| d in s.tasks[x].deps && Needs(s.tasks, d, a, depth - 1);
      StartsAfterDependencies(work, run, i, d);
      var j :| 0 <= j < i && s.shared.log[j].TaskFinished? && s.shared.log[j].task.id == d;
      SuccessWasStarted(work, s, j);
      var k :| 0 <= k < j && s.shared.log[k].TaskStarted? && s.shared.log[k].task.id == d;
      NeededSucceedFirst(work, run, k, a, depth - 1);
    }
  }

  /** What the storage configuration waits for. */
  function StorageNeeds(first: TaskId, shape: Shape): set<TaskId> {
    {first + 1, PreScriptsId(first), IscsiId(first, shape)}
    + (if shape.network then {NetworkId(first)} else {})
    + (if shape.s390 then {ZfcpId(first, shape), DasdId(first, shape)} else {})
  }

  function SoftwareNeeds(first: TaskId, shape: Shape): set<TaskId> {
    StorageNeeds(first, shape)
    + {NtpId(first), StorageId(first, shape), BootloaderId(first, shape)}
  }

  lemma GraphPositions(tasks: seq<Task>, first: TaskId, shape: Shape)
    requires PlacedSoFar(tasks, first, ConfigGraph(first, shape))
    ensures PreScriptsId(first) < |tasks| ==>
              tasks[PreScriptsId(first)] == Required("pre_scripts", Files, [first + 1])
    ensures IscsiId(first, shape) < |tasks| ==>
              tasks[IscsiId(first, shape)] == Required("iscsi_config", ISCSI, IscsiDeps(first, shape))
    ensures shape.product ==> forall k | 0 <= k < 4 && StorageId(first, shape) + k < |tasks| ::
              tasks[StorageId(first, shape) + k] == ProductTasks(first, shape)[k]
  {
    var graph := ConfigGraph(first, shape);
    assert 2 < |graph| && graph[2] == Required("pre_scripts", Files, [first + 1]);
    var n := IscsiId(first, shape) - first;
    assert n < |graph| && graph[n] == Required("iscsi_config", ISCSI, IscsiDeps(first, shape));
    if shape.product {
      var m := StorageId(first, shape) - first;
      forall k | 0 <= k < 4 && StorageId(first, shape) + k < |tasks|
        ensures tasks[StorageId(first, shape) + k] == ProductTasks(first, shape)[k]
      {
        assert graph[m + k] == ProductTasks(first, shape)[k];
        assert tasks[first + (m + k)] == graph[m + k];
      }
    }
  }

  lemma StorageNeedsHold(tasks: seq<Task>, first: TaskId, shape: Shape, a: TaskId)
    requires PlacedSoFar(tasks, first, ConfigGraph(first, shape)) && shape.product
    requires StorageId(first, shape) < |tasks|
    requires a in StorageNeeds(first, shape)
    ensures Needs(tasks, StorageId(first, shape), a, 2)
  {
    GraphPositions(tasks, first, shape);
    var storage, pre, iscsi := StorageId(first, shape), PreScriptsId(first), IscsiId(first, shape);
    assert tasks[storage + 0] == ProductTasks(first, shape)[0];
    var deps := StorageDeps(first, shape);
    assert tasks[storage].deps == deps && !tasks[storage].runAlways;
    assert deps[0] == pre && deps[1] == iscsi && pre in deps && iscsi in deps;
    if a == first + 1 {
      assert a in tasks[pre].deps && Needs(tasks, pre, a, 1);
    } else if shape.network && a == NetworkId(first) {
      assert IscsiDeps(first, shape)[1] == a;
      assert a in tasks[iscsi].deps && Needs(tasks, iscsi, a, 1);
    } else if a != pre && a != iscsi {
      assert deps[2] == ZfcpId(first, shape) && deps[3] == DasdId(first, shape);
    }
  }

  /** Storage is configured only after the scripts and every task that can change the devices succeeded. */
  lemma StorageWaits(work: Work, run: seq<Label>, first: TaskId, shape: Shape, i: nat)
    requires Valid(work, INIT, run) && shape.product
    requires var s := Exec(work, INIT, run);
             && PlacedSoFar(s.tasks, first, ConfigGraph(first, shape))
             && i < |s.shared.log| && s.shared.log[i].TaskStarted?
             && s.shared.log[i].task.id == StorageId(first, shape)
    ensures forall a | a in StorageNeeds(first, shape) :: SucceededBefore(Exec(work, INIT, run), a, i)
  {
    var s := Exec(work, INIT, run);
    ReachableInv(work, run);
    assert EventOk(s.tasks, s.shared.log, i);
    forall a | a in StorageNeeds(first, shape) ensures SucceededBefore(s, a, i) {
      StorageNeedsHold(s.tasks, first, shape, a);
      NeededSucceedFirst(work, run, i, a, 2);
    }
  }

  /** Software is configured only after all that, the storage, the boot loader and NTP. */
  lemma SoftwareWaits(work: Work, run: seq<Label>, first: TaskId, shape: Shape, i: nat)
    requires Valid(work, INIT, run) && shape.product
    requires var s := Exec(work, INIT, run);
             && PlacedSoFar(s.tasks, first, ConfigGraph(first, shape))
             && i < |s.shared.log| && s.shared.log[i].TaskStarted?
             && s.shared.log[i].task.id == SoftwareId(first, shape)
    ensures forall a | a in SoftwareNeeds(first, shape) :: SucceededBefore(Exec(work, INIT, run), a, i)
  {
    var s := Exec(work, INIT, run);
    var storage, software := StorageId(first, shape), SoftwareId(first, shape);
    GraphPositions(s.tasks, first, shape);
    ReachableInv(work, run);
    assert EventOk(s.tasks, s.shared.log, i);
    assert s.tasks[storage + 2] == ProductTasks(first, shape)[2];
    forall a | a in SoftwareNeeds(first, shape) ensures SucceededBefore(s, a, i) {
      var deps := s.tasks[software].deps;
      assert deps[2] == storage && deps[3] == BootloaderId(first, shape) && deps[4] == NtpId(first);
      if a in StorageNeeds(first, shape) {
        StorageNeedsHold(s.tasks, first, shape, a);
        assert storage in deps && Needs(s.tasks, storage, a, 2);
        assert Needs(s.tasks, software, a, 3);
      } else {
        assert Needs(s.tasks, software, a, 3);
      }
      NeededSucceedFirst(work, run, i, a, 3);
    }
  }

  /**
   Nothing of the graph but the questions and files configuration (and the pre-installation scripts
   themselves) starts unless the pre-installation scripts succeeded before.
   */
  lemma OnlyAfterPreScripts(work: Work, run: seq<Label>, first: TaskId, shape: Shape, i: nat)
    requires Valid(work, INIT, run)
    requires var s := Exec(work, INIT, run);
             && PlacedSoFar(s.tasks, first, ConfigGraph(first, shape))
             && i < |s.shared.log| && s.shared.log[i].TaskStarted?
             && first + 3 <= s.shared.log[i].task.id < first + |ConfigGraph(first, shape)|
    ensures SucceededBefore(Exec(work, INIT, run), PreScriptsId(first), i)
  {
    var s := Exec(work, INIT, run);
    var x := s.shared.log[i].task.id;
    var pre := PreScriptsId(first);
    var k := x - first;
    ReachableInv(work, run);
    assert EventOk(s.tasks, s.shared.log, i);
    assert s.tasks[first + k] == ConfigGraph(first, shape)[k];
    SelinuxOnly(first, shape, k);
    if pre !in s.tasks[x].deps {
      GraphPositions(s.tasks, first, shape);
      assert s.tasks[StorageId(first, shape) + 2] == ProductTasks(first, shape)[2];
      assert s.tasks[StorageId(first, shape) + 3] == ProductTasks(first, shape)[3];
      assert Needs(s.tasks, SoftwareId(first, shape), pre, 1) by {
        assert s.tasks[SoftwareId(first, shape)].deps[1] == pre;
      }
      assert s.tasks[x].deps == [SoftwareId(first, shape)];
      assert SoftwareId(first, shape) in s.tasks[x].deps;
    }
    assert Needs(s.tasks, x, pre, 2);
    NeededSucceedFirst(work, run, i, pre, 2);
  }

  lemma SelinuxOnly(first: TaskId, shape: Shape, k: nat)
    requires 3 <= k < |ConfigGraph(first, shape)|
    ensures !ConfigGraph(first, shape)[k].runAlways
    ensures PreScriptsId(first) in ConfigGraph(first, shape)[k].deps
         || (shape.product && first + k == SoftwareId(first, shape) + 1)
  {
    var common, devices := CommonTasks(first), DeviceTasks(first, shape);
    if k < |common| {
      assert ConfigGraph(first, shape)[k] == common[k];
      assert common[k].deps[0] == PreScriptsId(first);
    } else if k < |common| + |devices| {
      var d := devices[k - |common|];
      assert ConfigGraph(first, shape)[k] == d;
      assert d.deps[0] == PreScriptsId(first);
    } else {
      var p := ProductTasks(first, shape)[k - |common| - |devices|];
      assert ConfigGraph(first, shape)[k] == p;
      assert StorageDeps(first, shape)[0] == PreScriptsId(first);
      assert first + k != SoftwareId(first, shape) + 1 ==>
          p.deps[0] == PreScriptsId(first) || p.deps[1] == PreScriptsId(first);
    }
  }
}
