/** What the services of the installer share: scopes, stages and the event channel. */
module Events {
  type TaskId = nat

  datatype Option<+T> = None | Some(value: T) {
    function GetOr(default: T): T {
      match this
      case Some(v) => v
      case None => default
    }
  }

  datatype Scope =
    | Access | Bootloader | Manager | Network | Ntp | Hostname | L10n | Product | Proxy
    | Questions | Security | Software | Storage | Files | ISCSI | DASD | ZFCP | Users

  datatype Stage = Configuring | Installing | Finished | Failed

  /** The description of a task, as stored by the task manager and as sent to clients. */
  datatype TaskInfo = TaskInfo(id: TaskId, name: string, scope: Scope, description: string)

  datatype Progress = Progress(scope: Scope, size: nat, steps: seq<string>, step: string, index: nat)

  datatype Event =
    | StageChanged(stage: Stage)
    | ProgressChanged(progress: Progress)
    | ProgressFinished(scope: Scope)
    | IssuesChanged(scope: Scope)
    | QuestionAdded(question: nat)
    | QuestionAnswered(question: nat)
    | TaskAdded(task: TaskInfo)
    | TaskStarted(task: TaskInfo)
    | TaskFinished(task: TaskInfo, remaining: nat)
    | OtherEvent(text: string)

  predicate IsTaskEvent(e: Event) {
    e.TaskAdded? || e.TaskStarted? || e.TaskFinished?
  }
}
