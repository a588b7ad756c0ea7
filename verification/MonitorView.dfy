/** What the status of the monitor shows after any feed of messages (rust/agama-lib/src/monitor.rs). */
module MonitorView {
  import opened Events
  import opened Sequences
  import opened Monitoring

  /*** Filters keep the order ***/

  lemma {:induction false} WithoutTaskInOrder(a: seq<TaskInfo>, b: seq<TaskInfo>, id: TaskId)
    ensures WithoutTask(a + b, id) == WithoutTask(a, id) + WithoutTask(b, id)
  {
    if a == [] {
      assert a + b == b;
    } else {
      var all := a + b;
      assert all[0] == a[0] && all[1..] == a[1..] + b;
      WithoutTaskInOrder(a[1..], b, id);
      Regroup(if a[0].id == id then [] else [a[0]], WithoutTask(a[1..], id), WithoutTask(b, id));
    }
  }

  lemma {:induction false} WithoutScopeInOrder(a: seq<Progress>, b: seq<Progress>, scope: Scope)
    ensures WithoutScope(a + b, scope) == WithoutScope(a, scope) + WithoutScope(b, scope)
  {
    if a == [] {
      assert a + b == b;
    } else {
      var all := a + b;
      assert all[0] == a[0] && all[1..] == a[1..] + b;
      WithoutScopeInOrder(a[1..], b, scope);
      Regroup(if a[0].scope == scope then [] else [a[0]], WithoutScope(a[1..], scope), WithoutScope(b, scope));
    }
  }

  lemma {:induction false} UnansweredInOrder(a: seq<Question>, b: seq<Question>)
    ensures Unanswered(a + b) == Unanswered(a) + Unanswered(b)
  {
    if a == [] {
      assert a + b == b;
    } else {
      var all := a + b;
      assert all[0] == a[0] && all[1..] == a[1..] + b;
      UnansweredInOrder(a[1..], b);
      Regroup(if a[0].answered then [] else [a[0]], Unanswered(a[1..]), Unanswered(b));
    }
  }

  lemma {:induction false} WithoutQuestionInOrder(a: seq<Question>, b: seq<Question>, id: nat)
    ensures WithoutQuestion(a + b, id) == WithoutQuestion(a, id) + WithoutQuestion(b, id)
  {
    if a == [] {
      assert a + b == b;
    } else {
      var all := a + b;
      assert all[0] == a[0] && all[1..] == a[1..] + b;
      WithoutQuestionInOrder(a[1..], b, id);
      Regroup(if a[0].id == id then [] else [a[0]], WithoutQuestion(a[1..], id), WithoutQuestion(b, id));
    }
  }

  lemma SingleKept(t: TaskInfo, p: Progress, q: Question, id: nat, scope: Scope)
    ensures WithoutTask([t], id) == if t.id == id then [] else [t]
    ensures WithoutScope([p], scope) == if p.scope == scope then [] else [p]
    ensures Unanswered([q]) == if q.answered then [] else [q]
    ensures WithoutQuestion([q], id) == if q.id == id then [] else [q]
  {
    assert WithoutTask([t][1..], id) == [] && WithoutScope([p][1..], scope) == [];
    assert Unanswered([q][1..]) == [] && WithoutQuestion([q][1..], id) == [];
  }

  /*** Progresses ***/

  predicate OnePerScope(progresses: seq<Progress>) {
    forall i, j | 0 <= i < j < |progresses| :: progresses[i].scope != progresses[j].scope
  }

  /** The position of the first progress of the scope, or the length. */
  function FirstOfScope(progresses: seq<Progress>, scope: Scope): (n: nat)
    ensures n <= |progresses| && (forall i | 0 <= i < n :: progresses[i].scope != scope)
    ensures n < |progresses| ==> progresses[n].scope == scope
  {
    if progresses == [] || progresses[0].scope == scope then 0 else 1 + FirstOfScope(progresses[1..], scope)
  }

  /** A progress takes the place of the first one of its scope, or goes to the end; the others stay. */
  lemma {:induction false} PutProgressIs(progresses: seq<Progress>, p: Progress)
    ensures PutProgress(progresses, p) ==
              var n := FirstOfScope(progresses, p.scope);
              if n < |progresses| then progresses[n := p] else progresses + [p]
  {
    if progresses != [] && progresses[0].scope != p.scope {
      PutProgressIs(progresses[1..], p);
    }
  }

  /** Of other scopes nothing changes, and with one progress for each scope there is still only one. */
  lemma PutProgressKeeps(progresses: seq<Progress>, p: Progress, q: Progress)
    ensures q.scope != p.scope ==> (q in PutProgress(progresses, p) <==> q in progresses)
    ensures p in PutProgress(progresses, p)
    ensures OnePerScope(progresses) ==> OnePerScope(PutProgress(progresses, p))
    ensures OnePerScope(progresses) && q.scope == p.scope ==> (q in PutProgress(progresses, p) <==> q == p)
  {
    var n, r := FirstOfScope(progresses, p.scope), PutProgress(progresses, p);
    PutProgressIs(progresses, p);
    assert r[n] == p;
    if q in progresses && q.scope != p.scope {
      var i :| 0 <= i < |progresses| && progresses[i] == q;
      assert r[i] == q;
    }
  }

  lemma {:induction false} WithoutScopeKeeps(progresses: seq<Progress>, scope: Scope)
    requires OnePerScope(progresses)
    ensures OnePerScope(WithoutScope(progresses, scope))
  {
    if progresses != [] {
      var rest := WithoutScope(progresses[1..], scope);
      WithoutScopeKeeps(progresses[1..], scope);
      forall j | 0 <= j < |rest| ensures rest[j].scope != progresses[0].scope {
        assert rest[j] in progresses[1..];
      }
    }
  }

  predicate AboutScope(r: Received, scope: Scope) {
    && r.Delivered?
    && ((r.event.ProgressChanged? && r.event.progress.scope == scope) || r.event == ProgressFinished(scope))
  }

  /*** The last word ***/

  type Message = (Received, Answers)

  /** Among the first `n` messages the last one that speaks says so, or it was so before and none speaks. */
  ghost predicate LastWord(feed: seq<Message>, n: nat, before: bool, says: Message -> bool, speaks: Message -> bool)
    requires n <= |feed|
  {
    || (before && forall j | 0 <= j < n :: !speaks(feed[j]))
    || exists k | 0 <= k < n :: says(feed[k]) && forall j | k < j < n :: !speaks(feed[j])
  }

  lemma LastWordNext(feed: seq<Message>, n: nat, before: bool, says: Message -> bool, speaks: Message -> bool)
    requires n < |feed|
    ensures LastWord(feed, n + 1, before, says, speaks) <==>
              says(feed[n]) || (LastWord(feed, n, before, says, speaks) && !speaks(feed[n]))
  {
  }

  function SendsProgress(p: Progress): Message -> bool {
    (m: Message) => m.0 == Delivered(ProgressChanged(p))
  }

  function AboutProgress(scope: Scope): Message -> bool {
    (m: Message) => AboutScope(m.0, scope)
  }

  lemma ProgressAfter(s: Status, r: Received, http: Answers, p: Progress)
    requires OnePerScope(s.progresses) && r.Delivered?
    ensures var after := Next(s, r.event, http);
            && OnePerScope(after.progresses)
            && (p in after.progresses <==>
                  r.event == ProgressChanged(p) || (p in s.progresses && !AboutScope(r, p.scope)))
  {
    match r.event
    case ProgressChanged(q) => PutProgressKeeps(s.progresses, q, p);
    case ProgressFinished(scope) => WithoutScopeKeeps(s.progresses, scope);
    case _ =>
  }

  /**
   At any time there is at most one progress for each scope, and a progress is shown exactly if it is the
   last word about its scope: the last one sent since the scope was last finished, or one of the start.
   */
  lemma {:induction false} ProgressShown(s: Status, feed: seq<Message>, n: nat, p: Progress)
    requires n <= |feed| && OnePerScope(s.progresses)
    ensures OnePerScope(StatusAt(s, feed, n).progresses)
    ensures p in StatusAt(s, feed, n).progresses 
            <==> LastWord(feed, n, p in s.progresses, SendsProgress(p), AboutProgress(p.scope))
  {
    if n > 0 {
      ProgressShown(s, feed, n - 1, p);
      StatusNext(s, feed, n - 1);
      LastWordNext(feed, n - 1, p in s.progresses, SendsProgress(p), AboutProgress(p.scope));
      if feed[n - 1].0.Delivered? {
        ProgressAfter(StatusAt(s, feed, n - 1), feed[n - 1].0, feed[n - 1].1, p);
      }
    }
  }

  /*** Stage, issues, product and questions ***/

  predicate TellsStage(m: Message) {
    m.0.Delivered? && m.0.event.StageChanged?
  }

  function SendsStage(stage: Stage): Message -> bool {
    (m: Message) => m.0 == Delivered(StageChanged(stage))
  }

  lemma {:induction false} StageShown(s: Status, feed: seq<Message>, n: nat, stage: Stage)
    requires n <= |feed|
    ensures StatusAt(s, feed, n).stage == stage
            <==> LastWord(feed, n, s.stage == stage, SendsStage(stage), TellsStage)
  {
    if n > 0 {
      StageShown(s, feed, n - 1, stage);
      StatusNext(s, feed, n - 1);
      LastWordNext(feed, n - 1, s.stage == stage, SendsStage(stage), TellsStage);
    }
  }

  /** The issues are asked for again, and the answer arrives. */
  predicate TellsIssues(m: Message) {
    m.0.Delivered? && m.0.event.IssuesChanged? && m.1.issues.Some?
  }

  function SendsIssues(issues: seq<string>): Message -> bool {
    (m: Message) => TellsIssues(m) && m.1.issues.value == issues
  }

  lemma {:induction false} IssuesShown(s: Status, feed: seq<Message>, n: nat, issues: seq<string>)
    requires n <= |feed|
    ensures StatusAt(s, feed, n).issues == issues
            <==> LastWord(feed, n, s.issues == issues, SendsIssues(issues), TellsIssues)
  {
    if n > 0 {
      IssuesShown(s, feed, n - 1, issues);
      StatusNext(s, feed, n - 1);
      LastWordNext(feed, n - 1, s.issues == issues, SendsIssues(issues), TellsIssues);
    }
  }

  /** The product is asked for after the issues arrived. */
  predicate TellsProduct(m: Message) {
    TellsIssues(m) && m.1.product.Some?
  }

  function SendsProduct(product: Option<string>): Message -> bool {
    (m: Message) => TellsProduct(m) && m.1.product.value == product
  }

  lemma {:induction false} ProductShown(s: Status, feed: seq<Message>, n: nat, product: Option<string>)
    requires n <= |feed|
    ensures StatusAt(s, feed, n).product == product
            <==> LastWord(feed, n, s.product == product, SendsProduct(product), TellsProduct)
  {
    if n > 0 {
      ProductShown(s, feed, n - 1, product);
      StatusNext(s, feed, n - 1);
      LastWordNext(feed, n - 1, s.product == product, SendsProduct(product), TellsProduct);
    }
  }

  predicate TellsQuestions(m: Message) {
    m.0.Delivered? && m.0.event.QuestionAdded? && m.1.questions.Some?
  }

  function SendsQuestion(q: Question): Message -> bool {
    (m: Message) => TellsQuestions(m) && q in m.1.questions.value && !q.answered
  }

  function AboutQuestion(id: nat): Message -> bool {
    (m: Message) => TellsQuestions(m) || m.0 == Delivered(QuestionAnswered(id))
  }

  /** A question is shown if it was open in the last list that arrived and was not answered since then. */
  lemma {:induction false} QuestionShown(s: Status, feed: seq<Message>, n: nat, q: Question)
    requires n <= |feed|
    ensures q in StatusAt(s, feed, n).questions
            <==> LastWord(feed, n, q in s.questions, SendsQuestion(q), AboutQuestion(q.id))
  {
    if n > 0 {
      QuestionShown(s, feed, n - 1, q);
      StatusNext(s, feed, n - 1);
      LastWordNext(feed, n - 1, q in s.questions, SendsQuestion(q), AboutQuestion(q.id));
    }
  }
}
