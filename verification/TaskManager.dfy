/**
 The state that all tasks share (rust/agama-manager/src/task_manager.rs) and the critical
 sections that read or change it. `Notify` is a counter: `notify_waiters` adds one to it, and a
 `Notified` future remembers the value it was created at.

 The functions are the specification of the sections; the class keeps the state in fields, as the
 source does, and each of its methods is proved to perform one section.
 */
module TaskManagement {
  import opened Events

  datatype Shared = Shared(
    succeeded: set<TaskId>,
    failed: set<TaskId>,
    nextId: nat,
    epoch: nat,
    metadata: map<TaskId, TaskInfo>,
    log: seq<Event>)

  const EMPTY_SHARED := Shared({}, {}, 0, 0, map[], [])

  predicate AllDone(s: Shared, deps: seq<TaskId>) {
    forall d | d in deps :: d in s.succeeded || d in s.failed
  }

  /** The failed ones among the dependencies, in the order of the dependencies. */
  function FailedAmong(failed: set<TaskId>, deps: seq<TaskId>): (r: seq<TaskId>)
    ensures forall d :: d in r <==> d in deps && d in failed
  {
    if deps == [] then []
    else (if deps[0] in failed then [deps[0]] else []) + FailedAmong(failed, deps[1..])
  }

  ghost predicate Keyed(metadata: map<TaskId, TaskInfo>) {
    forall id | id in metadata :: metadata[id].id == id
  }

  /** `all` enumerates the values of `metadata`, in some order and without repetition. */
  ghost predicate Lists(all: seq<TaskInfo>, metadata: map<TaskId, TaskInfo>) {
    && (forall i, j | 0 <= i < j < |all| :: all[i].id != all[j].id)
    && (forall t :: t in all <==> t.id in metadata && metadata[t.id] == t)
  }

  function TakeId(s: Shared): Shared {
    s.(nextId := s.nextId + 1)
  }

  function Store(s: Shared, task: TaskInfo): Shared {
    s.(metadata := s.metadata[task.id := task])
  }

  function Send(s: Shared, e: Event): Shared {
    s.(log := s.log + [e])
  }

  /** The section that ends a task: outcome, wake-up, removal and event under one write lock. */
  function Complete(s: Shared, task: TaskInfo, ok: bool): Shared {
    var remaining := s.metadata - {task.id};
    Shared(
      if ok then s.succeeded + {task.id} else s.succeeded,
      if ok then s.failed else s.failed + {task.id},
      s.nextId, s.epoch + 1, remaining,
      s.log + [TaskFinished(task, |remaining|)])
  }

  class TaskManager {
    var succeeded: set<TaskId>
    var failed: set<TaskId>
    var nextId: nat
    var notify: nat
    var metadata: map<TaskId, TaskInfo>
    var events: seq<Event>

    ghost function View(): Shared
      reads this
    {
      Shared(succeeded, failed, nextId, notify, metadata, events)
    }

    constructor ()
      ensures View() == EMPTY_SHARED
    {
      succeeded, failed, nextId, notify, metadata, events := {}, {}, 0, 0, map[], [];
    }

    method NextId() returns (id: TaskId)
      modifies this
      ensures id == old(nextId)
      ensures View() == TakeId(old(View()))
    {
      id := nextId;
      nextId := nextId + 1;
    }

    method StoreMetadata(task: TaskInfo)
      modifies this
      ensures View() == Store(old(View()), task)
    {
      metadata := metadata[task.id := task];
    }

    method SendEvent(e: Event)
      modifies this
      ensures View() == Send(old(View()), e)
    {
      events := events + [e];
    }

    /** One round of the waiting loop under the read lock: the failed dependencies once all are done. */
    method CheckDependencies(deps: seq<TaskId>) returns (done: Option<seq<TaskId>>)
      ensures done.Some? <==> AllDone(View(), deps)
      ensures done.Some? ==> done.value == FailedAmong(failed, deps)
    {
      if forall dep | dep in deps :: dep in succeeded || dep in failed {
        done := Some(FailedAmong(failed, deps));
      } else {
        done := None;
      }
    }

    /** A task is cancelled: failed without having run. */
    method Cancel(task: TaskInfo)
      modifies this
      ensures View() == Complete(old(View()), task, false)
    {
      failed := failed + {task.id};
      notify := notify + 1;
      metadata := metadata - {task.id};
      events := events + [TaskFinished(task, |metadata|)];
    }

    /** A task ends with the result of its work. */
    method Finish(task: TaskInfo, ok: bool)
      modifies this
      ensures View() == Complete(old(View()), task, ok)
    {
      if ok {
        succeeded := succeeded + {task.id};
      } else {
        failed := failed + {task.id};
      }
      notify := notify + 1;
      metadata := metadata - {task.id};
      events := events + [TaskFinished(task, |metadata|)];
    }

    /** All stored descriptions, each once, in an order that is not specified. */
    method GetAllMetadata() returns (all: seq<TaskInfo>)
      requires Keyed(metadata)
      ensures Lists(all, metadata)
    {
      all := [];
      var pending := metadata.Keys;
      while pending != {}
        invariant pending <= metadata.Keys
        invariant forall t :: t in all <==> t.id in metadata.Keys - pending && metadata[t.id] == t
        invariant forall i, j | 0 <= i < j < |all| :: all[i].id != all[j].id
      {
        var id :| id in pending;
        assert metadata[id] !in all;
        all := all + [metadata[id]];
        pending := pending - {id};
      }
    }
  }
}
