/**
 The client that mirrors the installation status (rust/agama-lib/src/monitor.rs). Answers of the
 HTTP API that an event makes it ask for are parameters; `None` is a failed request.
 */
module Monitoring {
  import opened Events

  datatype Question = Question(id: nat, answered: bool)

  datatype Status = Status(
    stage: Stage,
    progresses: seq<Progress>,
    tasks: seq<TaskInfo>,
    issues: seq<string>,
    questions: seq<Question>,
    product: Option<string>)

  datatype Answers = Answers(
    issues: Option<seq<string>>,
    product: Option<Option<string>>,
    questions: Option<seq<Question>>)

  /** What the web socket delivers. */
  datatype Received = Delivered(event: Event) | Closed | Broken(reason: string)

  datatype Update = StatusUpdate(status: Status) | Idle | Disconnected | ErrorUpdate(reason: string)

  predicate IsIdle(s: Status) {
    s.progresses == [] && s.tasks == []
  }

  function WithoutTask(tasks: seq<TaskInfo>, id: TaskId): (r: seq<TaskInfo>)
    ensures forall t :: t in r <==> t in tasks && t.id != id
  {
    if tasks == [] then []
    else (if tasks[0].id == id then [] else [tasks[0]]) + WithoutTask(tasks[1..], id)
  }

  function WithoutScope(progresses: seq<Progress>, scope: Scope): (r: seq<Progress>)
    ensures forall p :: p in r <==> p in progresses && p.scope != scope
  {
    if progresses == [] then []
    else (if progresses[0].scope == scope then [] else [progresses[0]]) + WithoutScope(progresses[1..], scope)
  }

  function Unanswered(questions: seq<Question>): (r: seq<Question>)
    ensures forall q :: q in r <==> q in questions && !q.answered
  {
    if questions == [] then []
    else (if questions[0].answered then [] else [questions[0]]) + Unanswered(questions[1..])
  }

  function WithoutQuestion(questions: seq<Question>, id: nat): (r: seq<Question>)
    ensures forall q :: q in r <==> q in questions && q.id != id
  {
    if questions == [] then []
    else (if questions[0].id == id then [] else [questions[0]]) + WithoutQuestion(questions[1..], id)
  }

  /** The first progress of the scope is replaced; if there is none, the new one goes to the end. */
  function PutProgress(progresses: seq<Progress>, p: Progress): seq<Progress> {
    if progresses == [] then [p]
    else if progresses[0].scope == p.scope then [p] + progresses[1..]
    else [progresses[0]] + PutProgress(progresses[1..], p)
  }

  predicate HasTask(tasks: seq<TaskInfo>, id: TaskId) {
    exists t | t in tasks :: t.id == id
  }

  /** The list of tasks after one event. */
  function TrackTask(tasks: seq<TaskInfo>, e: Event): seq<TaskInfo> {
    match e
    case TaskStarted(task) => if HasTask(tasks, task.id) then tasks else tasks + [task]
    case TaskFinished(task, _) => WithoutTask(tasks, task.id)
    case _ => tasks
  }

  /** The status after an event, or `None` if the event changes nothing that subscribers are told. */
  function AfterEvent(s: Status, e: Event, http: Answers): Option<Status> {
    match e
    case StageChanged(stage) => Some(s.(stage := stage))
    case IssuesChanged(_) =>
      if http.issues.None? then None
      else Some(s.(issues := http.issues.value, product := http.product.GetOr(s.product)))
    case QuestionAdded(_) =>
      if http.questions.None? then None else Some(s.(questions := Unanswered(http.questions.value)))
    case QuestionAnswered(id) => Some(s.(questions := WithoutQuestion(s.questions, id)))
    case ProgressChanged(p) => Some(s.(progresses := PutProgress(s.progresses, p)))
    case ProgressFinished(scope) => Some(s.(progresses := WithoutScope(s.progresses, scope)))
    case TaskStarted(_) => Some(s.(tasks := TrackTask(s.tasks, e)))
    case TaskFinished(_, _) => Some(s.(tasks := TrackTask(s.tasks, e)))
    case TaskAdded(_) => None
    case OtherEvent(_) => None
  }

  function Next(s: Status, e: Event, http: Answers): Status {
    AfterEvent(s, e, http).GetOr(s)
  }

  /** The final message if the monitor stops here: the connection is lost, or it became idle. */
  function Terminal(s: Status, r: Received, http: Answers, stopOnIdle: bool): Option<Update> {
    match r
    case Closed => Some(Disconnected)
    case Broken(reason) => Some(ErrorUpdate(reason))
    case Delivered(e) =>
      var after := AfterEvent(s, e, http);
      if after.Some? && stopOnIdle && IsIdle(after.value) then Some(Idle) else None
  }

  /** The status after a prefix of what is received. */
  function Follow(s: Status, feed: seq<(Received, Answers)>): Status {
    if feed == [] then s
    else
      var before := Follow(s, feed[..|feed| - 1]);
      var (r, http) := feed[|feed| - 1];
      if r.Delivered? then Next(before, r.event, http) else before
  }

  /** The status before the message at `k`, and whether the monitor would stop at it. */
  function StatusAt(s: Status, feed: seq<(Received, Answers)>, k: nat): Status
    requires k <= |feed|
  {
    Follow(s, feed[..k])
  }

  function StopAt(s: Status, feed: seq<(Received, Answers)>, k: nat, stopOnIdle: bool): Option<Update>
    requires k < |feed|
  {
    Terminal(StatusAt(s, feed, k), feed[k].0, feed[k].1, stopOnIdle)
  }

  /** A message that changes the status that subscribers are told. */
  predicate Handled(s: Status, r: Received, http: Answers) {
    r.Delivered? && AfterEvent(s, r.event, http).Some?
  }

  /** One status for each of the first `n` messages that is handled, in their order. */
  function Sent(s: Status, feed: seq<(Received, Answers)>, n: nat): seq<Update>
    requires n <= |feed|
  {
    if n == 0 then []
    else
      var (r, http) := feed[n - 1];
      var before := StatusAt(s, feed, n - 1);
      Sent(s, feed, n - 1) + if Handled(before, r, http) then [StatusUpdate(Next(before, r.event, http))] else []
  }

  /** The message that ends the updates, if the monitor stopped at the last of the first `n` messages. */
  function Ending(s: Status, feed: seq<(Received, Answers)>, n: nat, stopOnIdle: bool): seq<Update>
    requires n <= |feed|
  {
    if n == 0 || StopAt(s, feed, n - 1, stopOnIdle).None? then [] else [StopAt(s, feed, n - 1, stopOnIdle).value]
  }

  lemma StatusNext(s: Status, feed: seq<(Received, Answers)>, k: nat)
    requires k < |feed|
    ensures var before := StatusAt(s, feed, k);
            StatusAt(s, feed, k + 1)
            == if feed[k].0.Delivered? then Next(before, feed[k].0.event, feed[k].1) else before
  {
    assert feed[..k + 1][..k] == feed[..k];
  }

  /** The messages after which subscribers are told: of those that ask for more, only if it arrives. */
  predicate ToldOn(r: Received, http: Answers) {
    && r.Delivered? && !r.event.TaskAdded? && !r.event.OtherEvent?
    && (r.event.IssuesChanged? ==> http.issues.Some?) && (r.event.QuestionAdded? ==> http.questions.Some?)
  }

  class Monitor {
    var status: Status
    var updates: seq<Update>
    var seenBusy: bool
    const stopOnIdle: bool

    constructor (initial: Status, stopOnIdle: bool)
      ensures status == initial && updates == [] && this.stopOnIdle == stopOnIdle
      ensures seenBusy == !IsIdle(initial)
    {
      status, updates, this.stopOnIdle, seenBusy := initial, [], stopOnIdle, !IsIdle(initial);
    }

    /**
     Handles one message. The source also tests `seen_busy` before it stops, but that flag has just
     been set: an idle monitor stops at the first event that it handles, whether work began or not.
     */
    method HandleEvent(r: Received, http: Answers) returns (stop: Option<Update>)
      modifies this
      ensures stop == Terminal(old(status), r, http, stopOnIdle)
      ensures status == if r.Delivered? then Next(old(status), r.event, http) else old(status)
      ensures updates == old(updates) +
        (if Handled(old(status), r, http) then [StatusUpdate(status)] else [])
      ensures seenBusy == (old(seenBusy) || r.Delivered?)
      ensures updates == old(updates) + if ToldOn(r, http) then [StatusUpdate(status)] else []
      ensures !ToldOn(r, http) ==> status == old(status)
      ensures r.Delivered? && r.event.TaskStarted? ==>
                status.tasks == old(status.tasks) + if exists t | t in old(status.tasks) :: t.id == r.event.task.id
                                                    then [] else [r.event.task]
      ensures r.Closed? ==> stop == Some(Disconnected)
      ensures r.Broken? ==> stop == Some(ErrorUpdate(r.reason))
      ensures r.Delivered? ==>
                stop == if stopOnIdle && ToldOn(r, http) && status.progresses == [] && status.tasks == []
                        then Some(Idle) else None
    {
      match r
      case Closed => return Some(Disconnected);
      case Broken(reason) => return Some(ErrorUpdate(reason));
      case Delivered(e) =>
        seenBusy := true;
        match e {
          case StageChanged(stage) =>
            status := status.(stage := stage);
          case IssuesChanged(_) =>
            if http.issues.None? { return None; }
            status := status.(issues := http.issues.value);
            if http.product.Some? {
              status := status.(product := http.product.value);
            }
          case QuestionAdded(_) =>
            if http.questions.None? { return None; }
            status := status.(questions := Unanswered(http.questions.value));
          case QuestionAnswered(id) =>
            status := status.(questions := WithoutQuestion(status.questions, id));
          case ProgressChanged(p) =>
            status := status.(progresses := PutProgress(status.progresses, p));
          case ProgressFinished(scope) =>
            status := status.(progresses := WithoutScope(status.progresses, scope));
          case TaskStarted(task) =>
            if !HasTask(status.tasks, task.id) {
              status := status.(tasks := status.tasks + [task]);
            }
          case TaskFinished(task, _) =>
            status := status.(tasks := WithoutTask(status.tasks, task.id));
          case _ =>
            return None;
        }
        updates := updates + [StatusUpdate(status)];
        if stopOnIdle && seenBusy && IsIdle(status) {
          stop := Some(Idle);
        } else {
          stop := None;
        }
    }

    /** The receive loop, over the messages that arrive; it says how many it took. */
    method Run(feed: seq<(Received, Answers)>) returns (taken: nat)
      modifies this
      ensures taken <= |feed| && status == StatusAt(old(status), feed, taken)
      ensures forall k | 0 <= k < taken - 1 :: StopAt(old(status), feed, k, stopOnIdle).None?
      ensures taken < |feed| ==> taken > 0 && StopAt(old(status), feed, taken - 1, stopOnIdle).Some?
      ensures updates == old(updates) + [StatusUpdate(old(status))] + Sent(old(status), feed, taken)
                         + Ending(old(status), feed, taken, stopOnIdle)
    {
      ghost var s, sent := status, updates;
      updates := updates + [StatusUpdate(status)];
      taken := 0;
      while taken < |feed|
        invariant taken <= |feed| && status == StatusAt(s, feed, taken)
        invariant forall k | 0 <= k < taken :: StopAt(s, feed, k, stopOnIdle).None?
        invariant updates == sent + [StatusUpdate(s)] + Sent(s, feed, taken)
      {
        StatusNext(s, feed, taken);
        var stop := HandleEvent(feed[taken].0, feed[taken].1);
        taken := taken + 1;
        if stop.Some? {
          updates := updates + [stop.value];
          return;
        }
      }
    }
  }

  /*** Stopping without having seen any work ***/

  predicate StartsWork(e: Event) {
    e.ProgressChanged? || e.TaskStarted?
  }

  /** An idle monitor stops at every event that it handles and that starts no work. */
  lemma IdleStops(s: Status, e: Event, http: Answers)
    requires IsIdle(s)
    ensures Terminal(s, Delivered(e), http, true) == Some(Idle)
            <==> Handled(s, Delivered(e), http) && !StartsWork(e)
    ensures Handled(s, Delivered(e), http) && StartsWork(e) ==> !IsIdle(Next(s, e, http))
  {
    if e.TaskStarted? {
      assert TrackTask(s.tasks, e) == if HasTask(s.tasks, e.task.id) then s.tasks else s.tasks + [e.task];
    }
  }

  /** The message at `n`, and none before it, makes the monitor say that the system is idle. */
  ghost predicate StopsIdle(s: Status, feed: seq<(Received, Answers)>, n: nat)
    requires n < |feed|
  {
    && (forall k | 0 <= k < n :: StopAt(s, feed, k, true).None?)
    && StopAt(s, feed, n, true) == Some(Idle)
  }

  ghost predicate NeverBusy(s: Status, feed: seq<(Received, Answers)>, n: nat)
    requires n <= |feed|
  {
    forall k | 0 <= k <= n :: IsIdle(StatusAt(s, feed, k))
  }

  /** The message at `n` is the first one that is handled; those before it are events that are ignored. */
  ghost predicate FirstHandled(s: Status, feed: seq<(Received, Answers)>, n: nat)
    requires n < |feed|
  {
    && (forall k | 0 <= k < n :: feed[k].0.Delivered? && !Handled(s, feed[k].0, feed[k].1))
    && Handled(s, feed[n].0, feed[n].1)
  }

  lemma {:induction false} FollowIgnored(s: Status, feed: seq<(Received, Answers)>, n: nat)
    requires n <= |feed| && forall k | 0 <= k < n :: feed[k].0.Delivered? && !Handled(s, feed[k].0, feed[k].1)
    ensures StatusAt(s, feed, n) == s
  {
    if n > 0 {
      FollowIgnored(s, feed, n - 1);
      StatusNext(s, feed, n - 1);
    }
  }

  lemma IdleIgnores(s: Status, r: Received, http: Answers)
    requires IsIdle(s) && Terminal(s, r, http, true).None?
    requires r.Delivered? ==> IsIdle(Next(s, r.event, http))
    ensures r.Delivered? && !Handled(s, r, http)
  {
  }

  /** A monitor that was never busy has ignored everything before it stops. */
  lemma {:induction false} NeverBusyIgnores(s: Status, feed: seq<(Received, Answers)>, n: nat)
    requires n <= |feed| && NeverBusy(s, feed, n)
    requires forall k | 0 <= k < n :: StopAt(s, feed, k, true).None?
    ensures forall k | 0 <= k < n :: feed[k].0.Delivered? && !Handled(s, feed[k].0, feed[k].1)
  {
    if n > 0 {
      var (r, http) := feed[n - 1];
      NeverBusyIgnores(s, feed, n - 1);
      FollowIgnored(s, feed, n - 1);
      StatusNext(s, feed, n - 1);
      assert IsIdle(StatusAt(s, feed, n - 1)) && IsIdle(StatusAt(s, feed, n));
      assert StopAt(s, feed, n - 1, true).None?;
      IdleIgnores(s, r, http);
    }
  }

  /**
   A monitor says idle without ever having seen work exactly if it starts idle and the first event
   that it handles starts no work.
   */
  lemma IdleWithoutWork(s: Status, feed: seq<(Received, Answers)>, n: nat)
    requires n < |feed|
    ensures StopsIdle(s, feed, n) && NeverBusy(s, feed, n)
            <==> IsIdle(s) && FirstHandled(s, feed, n) && !StartsWork(feed[n].0.event)
  {
    if StopsIdle(s, feed, n) && NeverBusy(s, feed, n) {
      NeverBusyIgnores(s, feed, n);
      FollowIgnored(s, feed, n);
      IdleStops(s, feed[n].0.event, feed[n].1);
    }
    if IsIdle(s) && FirstHandled(s, feed, n) && !StartsWork(feed[n].0.event) {
      forall k | 0 <= k <= n ensures StatusAt(s, feed, k) == s {
        FollowIgnored(s, feed, k);
      }
      IdleStops(s, feed[n].0.event, feed[n].1);
    }
  }

  /** So a change of the stage is enough, before anything has begun. */
  lemma StageEndsIdle(s: Status, stage: Stage, http: Answers)
    requires IsIdle(s)
    ensures var feed := [(Delivered(StageChanged(stage)), http)]; StopsIdle(s, feed, 0) && NeverBusy(s, feed, 0)
  {
    IdleWithoutWork(s, [(Delivered(StageChanged(stage)), http)], 0);
  }
}
