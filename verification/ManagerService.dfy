/**
 The guards (rust/agama-manager/src/checks.rs) and the handlers of the manager service that change
 the stage or spawn tasks (rust/agama-manager/src/service.rs). The service is an actor: it handles
 one request at a time. `queue` holds the tasks the current handler has still to spawn.
 */
module ManagerService {
  import opened Events
  import opened Scheduler
  import opened Actions

  datatype ProductError = UnknownProduct(id: string) | UnknownMode(id: string, mode: string)

  /** What a configuration says about the product, after looking it up among the known products. */
  datatype Choice = Unset | Chosen(id: string, mode: Option<string>) | Refused(error: ProductError)

  /** A configuration: its product, and whether it sets the network and the service for s390 devices runs. */
  datatype ConfigRequest = ConfigRequest(choice: Choice, network: bool, s390: bool)

  const NO_CONFIG := ConfigRequest(Unset, false, false)

  datatype Error =
    | UnexpectedStage(expected: Stage, current: Stage)
    | PendingIssues(issues: seq<string>)
    | Busy(scopes: seq<Scope>)
    | NoSuchProduct(error: ProductError)

  datatype Outcome = Accepted | Rejected(error: Error)

  function CheckStage(current: Stage, expected: Stage): Outcome {
    if current == expected then Accepted else Rejected(UnexpectedStage(expected, current))
  }

  function CheckIssues(issues: seq<string>): Outcome {
    if issues == [] then Accepted else Rejected(PendingIssues(issues))
  }

  function CheckProgress(progresses: seq<Progress>): Outcome {
    if progresses == [] then Accepted
    else Rejected(Busy(seq(|progresses|, i requires 0 <= i < |progresses| => progresses[i].scope)))
  }

  datatype Front = Front(
    stage: Stage,
    product: Choice,
    noProduct: bool,
    config: ConfigRequest,
    queue: seq<Task>,
    install: Option<TaskId>,
    configs: seq<(TaskId, Shape)>)

  function ShapeOf(c: ConfigRequest): Shape {
    Shape(c.network, c.s390, c.choice.Chosen?)
  }

  function SetConfigOutcome(f: Front, c: ConfigRequest): Outcome {
    if CheckStage(f.stage, Configuring).Rejected? then CheckStage(f.stage, Configuring)
    else if c.choice.Refused? then Rejected(NoSuchProduct(c.choice.error))
    else Accepted
  }

  /** The issue of the manager itself, and those of the other services. */
  function AllIssues(noProduct: bool, others: seq<string>): seq<string> {
    (if noProduct then ["no_product"] else []) + others
  }

  function InstallOutcome(f: Front, others: seq<string>, progresses: seq<Progress>): Outcome {
    if CheckStage(f.stage, Configuring).Rejected? then CheckStage(f.stage, Configuring)
    else if CheckIssues(AllIssues(f.noProduct, others)).Rejected? then CheckIssues(AllIssues(f.noProduct, others))
    else CheckProgress(progresses)
  }

  /**
   The front after a request; `first` is the next free task id. A refused product leaves the service
   without any, but the issue that tells so is not updated.
   */
  function AfterSetConfig(f: Front, first: TaskId, c: ConfigRequest): Front {
    if CheckStage(f.stage, Configuring).Rejected? then f
    else if c.choice.Refused? then f.(product := Unset)
    else f.(product := c.choice, noProduct := c.choice.Unset?, config := c,
            queue := ConfigGraph(first, ShapeOf(c)), configs := f.configs + [(first, ShapeOf(c))])
  }

  /** A refused configuration changes nothing exactly in another stage, or if no product was selected. */
  lemma RefusedChangesNothing(f: Front, first: TaskId, c: ConfigRequest)
    requires SetConfigOutcome(f, c).Rejected?
    ensures AfterSetConfig(f, first, c) == f <==> f.stage != Configuring || f.product == Unset
  {
    assert AfterSetConfig(f, first, c) == if f.stage != Configuring then f else f.(product := Unset);
  }

  function AfterInstall(f: Front, first: TaskId, others: seq<string>, progresses: seq<Progress>): Front {
    if InstallOutcome(f, others, progresses).Rejected? then f
    else f.(stage := Installing, queue := InstallGraph(first), install := Some(first))
  }

  /*** What the answers tell the client ***/

  predicate ListsScopes(scopes: seq<Scope>, progresses: seq<Progress>) {
    |scopes| == |progresses| && forall i | 0 <= i < |scopes| :: scopes[i] == progresses[i].scope
  }

  /**
   An installation is accepted exactly if the system is being configured and nothing is pending: neither
   an issue nor a progress. Otherwise nothing changes and the first of the three reasons is reported in full.
   */
  predicate InstallAnswered(f: Front, first: TaskId, others: seq<string>, progresses: seq<Progress>, r: Outcome,
                            after: Front) {
    && (r.Accepted? <==> f.stage == Configuring && !f.noProduct && others == [] && progresses == [])
    && (f.stage != Configuring ==> r == Rejected(UnexpectedStage(Configuring, f.stage)))
    && (f.stage == Configuring && f.noProduct ==> r == Rejected(PendingIssues(["no_product"] + others)))
    && (f.stage == Configuring && !f.noProduct && others != [] ==> r == Rejected(PendingIssues(others)))
    && (f.stage == Configuring && !f.noProduct && others == [] && progresses != [] ==>
          r.Rejected? && r.error.Busy? && ListsScopes(r.error.scopes, progresses))
    && (r.Rejected? ==> after == f)
    && (r.Accepted? ==> after == f.(stage := Installing, queue := InstallGraph(first), install := Some(first)))
  }

  lemma InstallExactly(f: Front, first: TaskId, others: seq<string>, progresses: seq<Progress>)
    ensures InstallAnswered(f, first, others, progresses, InstallOutcome(f, others, progresses),
                            AfterInstall(f, first, others, progresses))
  {
    assert ["no_product"] + others != [] && [] + others == others;
  }

  /**
   A configuration is accepted exactly if the system is being configured and its product is known. It is
   then the one in force; of a refused one nothing is kept, except that it unselects the product.
   */
  predicate ConfigAnswered(f: Front, first: TaskId, c: ConfigRequest, r: Outcome, after: Front) {
    && (r.Accepted? <==> f.stage == Configuring && !c.choice.Refused?)
    && (f.stage != Configuring ==> r == Rejected(UnexpectedStage(Configuring, f.stage)) && after == f)
    && (f.stage == Configuring && c.choice.Refused? ==>
          r == Rejected(NoSuchProduct(c.choice.error)) && after == f.(product := Unset))
    && (r.Accepted? ==>
          var shape := Shape(c.network, c.s390, c.choice.Chosen?);
          && after.product == c.choice && after.noProduct == c.choice.Unset? && after.config == c
          && after.queue == ConfigGraph(first, shape) && after.configs == f.configs + [(first, shape)]
          && after.stage == f.stage && after.install == f.install)
  }

  lemma ConfigExactly(f: Front, first: TaskId, c: ConfigRequest)
    ensures ConfigAnswered(f, first, c, SetConfigOutcome(f, c), AfterSetConfig(f, first, c))
  {
  }

  class Service {
    var stage: Stage
    var product: Choice
    /** Whether the issue "no_product" is set. */
    var noProduct: bool
    var config: ConfigRequest
    var queue: seq<Task>
    var install: Option<TaskId>
    var configs: seq<(TaskId, Shape)>

    function View(): Front
      reads this
    {
      Front(stage, product, noProduct, config, queue, install, configs)
    }

    constructor ()
      ensures View() == Front(Configuring, Unset, true, NO_CONFIG, [], None, [])
    {
      stage, product, noProduct, config := Configuring, Unset, true, NO_CONFIG;
      queue, install, configs := [], None, [];
    }

    method UpdateIssues()
      modifies this`noProduct
      ensures noProduct == (product == Unset)
    {
      noProduct := product == Unset;
    }

    method SetProduct(choice: Choice) returns (error: Option<Error>)
      modifies this`product, this`noProduct
      ensures product == if choice.Refused? then Unset else choice
      ensures noProduct == if choice.Refused? then old(noProduct) else choice.Unset?
      ensures error == if choice.Refused? then Some(NoSuchProduct(choice.error)) else None
    {
      product := Unset;
      match choice {
        case Unset =>
        case Chosen(_, _) => product := choice;
        case Refused(e) => return Some(NoSuchProduct(e));
      }
      UpdateIssues();
      error := None;
    }

    method HandleSetConfig(first: TaskId, c: ConfigRequest) returns (r: Outcome)
      modifies this
      ensures r == SetConfigOutcome(old(View()), c)
      ensures View() == AfterSetConfig(old(View()), first, c)
      ensures ConfigAnswered(old(View()), first, c, r, View())
    {
      r := CheckStage(stage, Configuring);
      if r.Rejected? { return; }
      var error := SetProduct(c.choice);
      if error.Some? { return Rejected(error.value); }
      config := c;
      var spawner := new Spawner(first);
      RunSetConfig(spawner, Shape(c.network, c.s390, product.Chosen?));
      queue := spawner.spawned;
      configs := configs + [(first, ShapeOf(c))];
    }

    method HandleInstall(first: TaskId, others: seq<string>, progresses: seq<Progress>) returns (r: Outcome)
      modifies this
      ensures r == InstallOutcome(old(View()), others, progresses)
      ensures View() == AfterInstall(old(View()), first, others, progresses)
      ensures InstallAnswered(old(View()), first, others, progresses, r, View())
    {
      InstallExactly(View(), first, others, progresses);
      r := CheckStage(stage, Configuring);
      if r.Rejected? { return; }
      r := CheckIssues(AllIssues(noProduct, others));
      if r.Rejected? { return; }
      r := CheckProgress(progresses);
      if r.Rejected? { return; }
      stage := Installing;
      var spawner := new Spawner(first);
      RunInstall(spawner);
      queue := spawner.spawned;
      install := Some(first);
    }
  }
}
