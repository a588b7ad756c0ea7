/** The stage of the installation as clients that follow the events see it. */
module StageEvents {
  import opened Events
  import opened TaskManagement
  import opened Scheduler
  import opened ManagerService
  import opened Installation
  import opened Monitoring
  import opened MonitorView

  /** The last stage that was sent is this one, or none was and this is the first one. */
  ghost predicate LastSent(log: seq<Event>, stage: Stage) {
    || (stage == Configuring && forall j | 0 <= j < |log| :: !log[j].StageChanged?)
    || exists i | 0 <= i < |log| :: log[i] == StageChanged(stage) && forall j | i < j < |log| :: !log[j].StageChanged?
  }

  lemma SentNext(log: seq<Event>, e: Event, stage: Stage)
    requires if e.StageChanged? then e.stage == stage else LastSent(log, stage)
    ensures LastSent(log + [e], stage)
  {
    var all := log + [e];
    assert all[|log|] == e;
    if !e.StageChanged? && exists i :: 0 <= i < |log| && log[i] == StageChanged(stage) &&
                                       forall j | i < j < |log| :: !log[j].StageChanged? {
      var i :| 0 <= i < |log| && log[i] == StageChanged(stage) && forall j | i < j < |log| :: !log[j].StageChanged?;
      assert all[i] == log[i];
    }
  }

  /** A step adds one event at most, and one about the stage only if that is what it sends. */
  lemma StepSends(work: Work, s: State, l: Label)
    requires |s.phases| == |s.tasks| && Enabled(s, l)
    ensures var log, log' := s.shared.log, Apply(work, s, l).shared.log;
            || log' == log
            || (|log'| == |log| + 1 && log' == log + [log'[|log|]]
                && (l.Emit? ==> log'[|log|] == l.event) && (!l.Emit? ==> !log'[|log|].StageChanged?))
  {
  }

  lemma RequestSends(work: Work, y: System, r: Request)
    requires WellFormed(y) && Possible(y, r) && LastSent(y.sched.shared.log, y.front.stage)
    ensures var y' := Perform(work, y, r); LastSent(y'.sched.shared.log, y'.front.stage)
  {
    var step := SchedulerStep(y, r);
    if step.Some? {
      var log, log' := y.sched.shared.log, Apply(work, y.sched, step.value).shared.log;
      StepSends(work, y.sched, step.value);
      if log' != log {
        SentNext(log, log'[|log|], Perform(work, y, r).front.stage);
      }
    }
  }

  lemma {:induction false} RunSends(work: Work, y: System, run: seq<Request>)
    requires WellFormed(y) && ValidRun(work, y, run) && LastSent(y.sched.shared.log, y.front.stage)
    ensures var z := ExecRun(work, y, run); LastSent(z.sched.shared.log, z.front.stage)
    decreases run
  {
    if run != [] {
      RequestSends(work, y, run[0]);
      RunSends(work, Perform(work, y, run[0]), run[1..]);
    }
  }

  /** In every run of the service, the stage is the last one that was sent. */
  lemma StageIsSent(work: Work, run: seq<Request>)
    requires ValidRun(work, START, run)
    ensures var y := ExecRun(work, START, run); LastSent(y.sched.shared.log, y.front.stage)
  {
    RunSends(work, START, run);
  }

  /** So a monitor that received all events shows the stage of the service. */
  lemma MonitorShowsStage(work: Work, run: seq<Request>, s: Status, feed: seq<Message>)
    requires ValidRun(work, START, run) && s.stage == Configuring
    requires var log := ExecRun(work, START, run).sched.shared.log;
             |feed| == |log| && forall k | 0 <= k < |feed| :: feed[k].0 == Delivered(log[k])
    ensures Follow(s, feed).stage == ExecRun(work, START, run).front.stage
  {
    var y := ExecRun(work, START, run);
    StageIsSent(work, run);
    FeedShows(s, feed, y.sched.shared.log, y.front.stage);
  }

  lemma FeedShows(s: Status, feed: seq<Message>, log: seq<Event>, stage: Stage)
    requires s.stage == Configuring && LastSent(log, stage)
    requires |feed| == |log| && forall k | 0 <= k < |feed| :: feed[k].0 == Delivered(log[k])
    ensures Follow(s, feed).stage == stage
  {
    StageShown(s, feed, |feed|, stage);
    assert feed[..|feed|] == feed;
    forall k | 0 <= k < |feed| ensures TellsStage(feed[k]) <==> log[k].StageChanged? {
    }
    if i :| 0 <= i < |log| && log[i] == StageChanged(stage) && forall j | i < j < |log| :: !log[j].StageChanged? {
      assert SendsStage(stage)(feed[i]);
    }
  }
}
