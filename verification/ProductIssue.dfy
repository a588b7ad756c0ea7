/** The selected product and the issue that tells when there is none, over whole runs of the service. */
module ProductIssue {
  import opened Events
  import opened TaskManagement
  import opened Scheduler
  import opened SchedulerInvariant
  import opened SchedulerTheorems
  import opened ManagerService
  import opened Installation
  import opened InstallationTheorems
  import opened ServiceProgress

  /** What the configurations said about the product that were handled while configuring, in their order. */
  function Choices(work: Work, y: System, run: seq<Request>): seq<Choice>
    requires WellFormed(y) && ValidRun(work, y, run)
    decreases run
  {
    if run == [] then []
    else
      (if run[0].SetConfig? && y.front.stage == Configuring then [run[0].config.choice] else [])
      + Choices(work, Perform(work, y, run[0]), run[1..])
  }

  /** The last choice that was not refused. */
  function LastUnderstood(before: Choice, choices: seq<Choice>): Choice
    decreases choices
  {
    if choices == [] then before
    else LastUnderstood(if choices[0].Refused? then before else choices[0], choices[1..])
  }

  function Selected(c: Choice): Choice {
    if c.Refused? then Unset else c
  }

  function LastSelected(before: Choice, choices: seq<Choice>): Choice {
    if choices == [] then before else Selected(choices[|choices| - 1])
  }

  ghost predicate FrontSays(f: Front, understood: Choice) {
    !f.product.Refused? && !understood.Refused? && (f.noProduct <==> understood == Unset)
  }

  lemma LastSelectedCons(before: Choice, c: Choice, rest: seq<Choice>)
    ensures LastSelected(before, [c] + rest) == LastSelected(Selected(c), rest)
  {
  }

  /** The product is that of the last choice, the issue that of the last one that was understood. */
  lemma {:induction false} RunSays(work: Work, y: System, run: seq<Request>, understood: Choice)
    requires WellFormed(y) && ValidRun(work, y, run) && FrontSays(y.front, understood)
    ensures var f, choices := ExecRun(work, y, run).front, Choices(work, y, run);
            && f.product == LastSelected(y.front.product, choices)
            && FrontSays(f, LastUnderstood(understood, choices))
    decreases run
  {
    if run != [] {
      var y' := Perform(work, y, run[0]);
      var rest := Choices(work, y', run[1..]);
      if run[0].SetConfig? && y.front.stage == Configuring {
        var c := run[0].config.choice;
        RunSays(work, y', run[1..], if c.Refused? then understood else c);
        assert Choices(work, y, run) == [c] + rest;
        assert ([c] + rest)[1..] == rest;
        LastSelectedCons(y.front.product, c, rest);
      } else {
        RunSays(work, y', run[1..], understood);
        assert Choices(work, y, run) == rest;
      }
    }
  }

  /** The last configuration was refused after one that selected a product. */
  predicate RefusedAfterProduct(choices: seq<Choice>) {
    choices != [] && choices[|choices| - 1].Refused? && LastUnderstood(Unset, choices).Chosen?
  }

  lemma {:induction false} LastIsUnderstood(before: Choice, choices: seq<Choice>)
    requires choices != [] && !choices[|choices| - 1].Refused?
    ensures LastUnderstood(before, choices) == choices[|choices| - 1]
    decreases choices
  {
    if |choices| > 1 {
      LastIsUnderstood(if choices[0].Refused? then before else choices[0], choices[1..]);
    }
  }

  /**
   In every run the issue says that there is no product exactly if there is none, unless the last
   configuration was refused after a product had been selected: then there is none, and no issue.
   */
  lemma IssueTellsExactly(work: Work, run: seq<Request>)
    requires ValidRun(work, START, run)
    ensures var f, choices := ExecRun(work, START, run).front, Choices(work, START, run);
            && ((f.noProduct <==> f.product == Unset) <==> !RefusedAfterProduct(choices))
            && (RefusedAfterProduct(choices) ==> f.product == Unset && !f.noProduct)
  {
    var choices := Choices(work, START, run);
    RunSays(work, START, run, Unset);
    if choices != [] && !choices[|choices| - 1].Refused? {
      LastIsUnderstood(Unset, choices);
    }
  }

  /** An installation that is accepted has a product, with the same exception. */
  lemma AcceptedHasProduct(work: Work, run: seq<Request>, others: seq<string>, progresses: seq<Progress>)
    requires ValidRun(work, START, run)
    requires InstallOutcome(ExecRun(work, START, run).front, others, progresses).Accepted?
    ensures ExecRun(work, START, run).front.product.Chosen? <==> !RefusedAfterProduct(Choices(work, START, run))
  {
    RunSays(work, START, run, Unset);
    IssueTellsExactly(work, run);
  }

  /*** A run that installs without a product ***/

  lemma RunFirst(work: Work, y: System, r: Request, rest: seq<Request>)
    requires WellFormed(y) && Possible(y, r) && ValidRun(work, Perform(work, y, r), rest)
    ensures ValidRun(work, y, [r] + rest)
    ensures ExecRun(work, y, [r] + rest) == ExecRun(work, Perform(work, y, r), rest)
  {
    assert ([r] + rest)[1..] == rest;
  }

  lemma {:induction false} RunAppended(work: Work, y: System, a: seq<Request>, b: seq<Request>)
    requires WellFormed(y) && ValidRun(work, y, a) && ValidRun(work, ExecRun(work, y, a), b)
    ensures ValidRun(work, y, a + b) && ExecRun(work, y, a + b) == ExecRun(work, ExecRun(work, y, a), b)
    decreases a
  {
    if a == [] {
      assert a + b == b;
    } else {
      assert a + b == [a[0]] + (a[1..] + b);
      RunAppended(work, Perform(work, y, a[0]), a[1..], b);
      RunFirst(work, y, a[0], a[1..] + b);
    }
  }

  /** What the service does by itself before an installation leaves all but the queue of its front. */
  lemma {:induction false} OwnKeepsFront(work: Work, y: System, run: seq<Request>)
    requires WellFormed(y) && ValidRun(work, y, run) && y.front.install.None?
    requires forall r | r in run :: ByItself(r)
    ensures ExecRun(work, y, run).front == y.front.(queue := ExecRun(work, y, run).front.queue)
    decreases run
  {
    if run != [] {
      assert run[0] in run;
      OwnKeepsFront(work, Perform(work, y, run[0]), run[1..]);
    }
  }

  lemma SettledIsFree(work: Work, y: System)
    requires SystemInv(work, y) && Settled(y)
    ensures y.front.queue == [] && HandedOver(y)
  {
    SettledIsQuiescent(work, y);
    forall p | p in y.sched.phases ensures !p.Allocated? && !p.Stored? {
      var id :| 0 <= id < |y.sched.phases| && y.sched.phases[id] == p;
      QuiescentPhase(work, y.sched, id);
    }
  }

  /** The service left alone gets to where it handles the next request. */
  lemma BecomesFree(work: Work, y: System) returns (run: seq<Request>)
    requires SystemInv(work, y) && y.front.install.None?
    ensures ValidRun(work, y, run)
    ensures var z := ExecRun(work, y, run); z.front == y.front.(queue := []) && HandedOver(z)
  {
    run := ServiceSettles(work, y);
    OwnKeepsFront(work, y, run);
    RunSystem(work, y, run);
    SettledIsFree(work, ExecRun(work, y, run));
  }

  function Asks(choice: Choice): Request {
    SetConfig(ConfigRequest(choice, false, false))
  }

  /** A free service that has a product: the refused configuration takes it away, and the installation is accepted. */
  lemma ThenInstalls(work: Work, y: System, id: string)
    requires WellFormed(y) && y.front.queue == [] && HandedOver(y)
    requires y.front.stage == Configuring && !y.front.noProduct
    ensures var run := [Asks(Refused(UnknownProduct(id))), Install([], [])];
            && ValidRun(work, y, run)
            && var f := ExecRun(work, y, run).front;
               f.install.Some? && f.stage == Installing && f.product == Unset
  {
    var a, b := Asks(Refused(UnknownProduct(id))), Install([], []);
    var y1 := Perform(work, y, a);
    assert Possible(y, a) && Possible(y1, b);
    var y2 := Perform(work, y1, b);
    assert ValidRun(work, y2, []) && ExecRun(work, y2, []) == y2;
    assert [a, b][1..] == [b] && [b][1..] == [];
    assert ValidRun(work, y1, [b]) && ExecRun(work, y1, [b]) == y2;
  }

  /** Whatever tasks do: a product is selected, then an unknown one, and the installation goes ahead without any. */
  lemma InstallsWithoutProduct(work: Work, good: string, bad: string) returns (run: seq<Request>)
    ensures ValidRun(work, START, run)
    ensures var f := ExecRun(work, START, run).front; f.install.Some? && f.stage == Installing && f.product == Unset
  {
    var y := AfterProduct(work, good);
    var more := BecomesFree(work, y);
    var last := [Asks(Refused(UnknownProduct(bad))), Install([], [])];
    ThenInstalls(work, ExecRun(work, y, more), bad);
    RunAppended(work, y, more, last);
    run := [Asks(Chosen(good, None))] + (more + last);
    assert run[1..] == more + last;
  }

  /** The service right after a product was selected. */
  lemma AfterProduct(work: Work, id: string) returns (y: System)
    ensures Possible(START, Asks(Chosen(id, None))) && y == Perform(work, START, Asks(Chosen(id, None)))
    ensures SystemInv(work, y) && y.front.install.None? && y.front.stage == Configuring && !y.front.noProduct
  {
    assert Possible(START, Asks(Chosen(id, None)));
    y := Perform(work, START, Asks(Chosen(id, None)));
    RunSystem(work, START, []);
    StepSystem(work, START, Asks(Chosen(id, None)));
  }
}
