/** AgentOrchestrator: issue analysis, task decomposition, then up to five
    rounds of generate → review → test → fix, and finally a draft pull
    request. Every agent is reached through its `execute` result, so the
    orchestration is stated for any agents; `RealRunFailsOnlyInCodeGen`
    plugs in the agents this model defines and the error feedback loop,
    leaving CodeGenAgent and the MCP tests as parameters. */
module Orchestrator {
  import opened Wrappers
  import opened AgentTypes
  import opened BaseAgent
  import Feedback
  import IssueAgent
  import CoordinatorAgent
  import CoordinatorTasks
  import Review
  import TestAgent
  import PRAgent

  const MaxIterations: nat := 5
  const ReviewThreshold: int := 80
  const CoverageThreshold: real := 80.0
  const DraftUrl: string := "https://github.com/owner/repo/pull/draft"

  type CodeGenReply = Feedback.CodeGenReply

  /** The agents `processIssue` calls, each as the result of its `execute`.
      `generate` is CodeGenAgent (called with the round number), `mcp` the
      MCP test run, and `repair` the error feedback loop's `analyzeErrors`
      followed by `fixErrors` in round k, whose thrown error is `Err`. */
  datatype Agents = Agents(
    analyze: Issue -> AgentResult<IssueAgent.IssueData, IssueAgent.IssueMeta>,
    coordinate: Issue -> AgentResult<CoordinatorAgent.CoordinatorData, CoordinatorAgent.CoordinatorMeta>,
    generate: (nat, Option<Task>) -> CodeGenReply,
    review: CodeGenResult -> AgentResult<ReviewResult, Review.ReviewMeta>,
    test: CodeGenResult -> AgentResult<TestResult, TestAgent.TestMeta>,
    mcp: (nat, CodeGenResult) -> seq<TestError>,
    repair: (nat, seq<TestError>, CodeGenResult) -> Result<CodeGenResult, string>,
    pr: PRAgent.PRInput -> AgentResult<PRAgent.PRData, PRAgent.PRMeta>)

  /** The `OrchestrationResult` without its duration. */
  datatype Orchestration = Orchestration(
    success: bool,
    issueNumber: int,
    executionPlan: Option<ExecutionPlan>,
    codeGenResult: Option<CodeGenResult>,
    reviewResult: Option<ReviewResult>,
    testResult: Option<TestResult>,
    prUrl: Option<string>,
    iterations: nat,
    error: Option<string>)

  /** `tasks[0]`, which is `undefined` for an empty task list. */
  function FirstTask(tasks: seq<Task>): (t: Option<Task>)
    ensures t.Some? <==> tasks != []
    ensures t.Some? ==> t.value == tasks[0]
  {
    if tasks == [] then None else Some(tasks[0])
  }

  /** `${result.error}`: a missing message prints as `undefined`. */
  function Failure(prefix: string, error: Option<string>): string
  {
    prefix + Feedback.ErrorText(error)
  }

  /** The variables the loop carries from round to round. */
  datatype Round = Round(codeGen: Option<CodeGenResult>, review: Option<ReviewResult>, test: Option<TestResult>)

  /** How one round ends: `throw`, `continue`, or `break`. */
  datatype Step = Abort(message: string) | Next(state: Round) | Pass(state: Round)

  /** The gates a round passes to leave the loop early. */
  function Gates(rv: ReviewResult, tr: TestResult): (b: bool)
    ensures b <==> rv.score >= 80 && |tr.errors| == 0 && tr.coverage >= 80.0
  {
    rv.score >= ReviewThreshold && tr.errors == [] && tr.coverage >= CoverageThreshold
  }

  /** Round `k` of the loop. */
  function Attempt(ag: Agents, first: Option<Task>, k: nat, st: Round): (s: Step)
    ensures s.Pass? ==> s.state.review.Some? && s.state.test.Some? && Gates(s.state.review.value, s.state.test.value)
    ensures !s.Abort? ==> s.state.codeGen.Some? && s.state.review.Some?
  {
    var reply := ag.generate(k, first);
    if !reply.success || reply.data.None? then Abort(Failure("コード生成失敗: ", reply.error))
    else
      var cg := reply.data.value;
      var rr := ag.review(cg);
      if !rr.success || rr.data.None? then Abort(Failure("レビュー失敗: ", rr.error))
      else
        var rv := rr.data.value;
        if rv.score < ReviewThreshold then Next(Round(Some(cg), Some(rv), st.test))
        else
          var tt := ag.test(cg);
          if !tt.success || tt.data.None? then Abort(Failure("テスト実行失敗: ", tt.error))
          else
            var t0 := tt.data.value;
            var tr := t0.(errors := t0.errors + ag.mcp(k, cg));
            if |tr.errors| > 0 then
              match ag.repair(k, tr.errors, cg)
              case Ok(fixed) => Next(Round(Some(fixed), Some(rv), Some(tr)))
              case Err(_) => Next(Round(Some(cg), Some(rv), Some(tr)))
            else if tr.coverage < CoverageThreshold then Next(Round(Some(cg), Some(rv), Some(tr)))
            else Pass(Round(Some(cg), Some(rv), Some(tr)))
  }

  /** How the loop ends: a thrown stage with the rounds counted so far, or
      the rounds made and the variables left behind. */
  datatype LoopEnd = Aborted(rounds: nat, message: string) | Finished(rounds: nat, state: Round)

  /** The loop after `done` rounds, from state `st`. */
  function Loop(ag: Agents, first: Option<Task>, done: nat, st: Round): (e: LoopEnd)
    requires done <= MaxIterations
    ensures done <= e.rounds <= MaxIterations
    ensures e.Finished? && done < MaxIterations ==> e.state.codeGen.Some? && e.state.review.Some?
    ensures e.Aborted? ==> done < e.rounds
    ensures e.Finished? && e.rounds < MaxIterations ==>
      e.state.review.Some? && e.state.test.Some? && Gates(e.state.review.value, e.state.test.value)
    decreases MaxIterations - done
  {
    if done == MaxIterations then Finished(done, st)
    else
      match Attempt(ag, first, done + 1, st)
      case Abort(msg) => Aborted(done + 1, msg)
      case Pass(st') => Finished(done + 1, st')
      case Next(st') => Loop(ag, first, done + 1, st')
  }

  const Start: Round := Round(None, None, None)

  function Failed(issue: Issue, iterations: nat, message: string): Orchestration
  {
    Orchestration(false, issue.number, None, None, None, None, None, iterations, Some(message))
  }

  /** What `processIssue(issue)` returns. At most five rounds are made; a
      success made at least one and carries the plan, the code, the review
      and the draft URL, and when it stopped before the fifth round the
      review and test results it reports pass the gates; a failure carries
      only its message and the rounds counted. */
  function Process(ag: Agents, issue: Issue): Orchestration
  {
    var ia := ag.analyze(issue);
    if !ia.success then Failed(issue, 0, Failure("Issue分析失敗: ", ia.error))
    else
      var co := ag.coordinate(issue);
      if !co.success || co.data.None? then Failed(issue, 0, Failure("タスク分解失敗: ", co.error))
      else
        var plan := co.data.value.plan;
        match Loop(ag, FirstTask(co.data.value.tasks), 0, Start)
        case Aborted(n, msg) => Failed(issue, n, msg)
        case Finished(n, st) =>
          var pr := ag.pr(PRAgent.PRInput(issue, st.codeGen.value, st.review.value));
          if !pr.success || pr.data.None? then Failed(issue, n, Failure("PR作成失敗: ", pr.error))
          else Orchestration(true, issue.number, Some(plan), st.codeGen, st.review, st.test, Some(DraftUrl), n, None)
  }

  /** Every run reports the issue's number and at most five rounds; a
      successful one carries the plan, the code, the review and the draft
      URL, and, when it stopped before the last round, a review and a test
      result that pass the gates; a failed one carries only its error. */
  lemma ProcessShape(ag: Agents, issue: Issue)
    ensures var r := Process(ag, issue);
      r.issueNumber == issue.number && r.iterations <= MaxIterations &&
      (r.success ==>
         1 <= r.iterations && r.error.None? && r.prUrl == Some(DraftUrl) &&
         r.executionPlan.Some? && r.codeGenResult.Some? && r.reviewResult.Some?) &&
      (r.success && r.iterations < MaxIterations ==>
         r.reviewResult.Some? && r.testResult.Some? && Gates(r.reviewResult.value, r.testResult.value)) &&
      (!r.success ==>
         r.error.Some? && r.executionPlan.None? && r.codeGenResult.None? &&
         r.reviewResult.None? && r.testResult.None? && r.prUrl.None?)
  {
  }

  /** The loop unfolded by one round. */
  lemma LoopUnfold(ag: Agents, first: Option<Task>, done: nat, st: Round)
    requires done < MaxIterations
    ensures Attempt(ag, first, done + 1, st).Abort? ==>
      Loop(ag, first, done, st) == Aborted(done + 1, Attempt(ag, first, done + 1, st).message)
    ensures Attempt(ag, first, done + 1, st).Pass? ==>
      Loop(ag, first, done, st) == Finished(done + 1, Attempt(ag, first, done + 1, st).state)
    ensures Attempt(ag, first, done + 1, st).Next? ==>
      Loop(ag, first, done, st) == Loop(ag, first, done + 1, Attempt(ag, first, done + 1, st).state)
  {
  }

  /** One round of the `while` loop of `processIssue`, from the variables
      `st` it starts with. */
  method RunRound(ag: Agents, first: Option<Task>, iterations: nat, st: Round) returns (s: Step)
    ensures s == Attempt(ag, first, iterations, st)
  {
    var codeResult := ag.generate(iterations, first);
    if !codeResult.success || codeResult.data.None? {
      return Abort(Failure("コード生成失敗: ", codeResult.error));
    }
    var codeGenResult := codeResult.data.value;
    var reviewResultData := ag.review(codeGenResult);
    if !reviewResultData.success || reviewResultData.data.None? {
      return Abort(Failure("レビュー失敗: ", reviewResultData.error));
    }
    var reviewResult := reviewResultData.data.value;
    if reviewResult.score < ReviewThreshold {
      return Next(Round(Some(codeGenResult), Some(reviewResult), st.test));
    }
    var testResultData := ag.test(codeGenResult);
    if !testResultData.success || testResultData.data.None? {
      return Abort(Failure("テスト実行失敗: ", testResultData.error));
    }
    var testResult := testResultData.data.value;
    var mcpErrors := ag.mcp(iterations, codeGenResult);
    if |mcpErrors| > 0 {
      testResult := testResult.(errors := testResult.errors + mcpErrors);
    } else {
      assert testResult.errors + mcpErrors == testResult.errors;
    }
    if |testResult.errors| > 0 {
      var fixed := ag.repair(iterations, testResult.errors, codeGenResult);
      if fixed.Ok? {
        codeGenResult := fixed.value;
      }
      return Next(Round(Some(codeGenResult), Some(reviewResult), Some(testResult)));
    }
    if testResult.coverage < CoverageThreshold {
      return Next(Round(Some(codeGenResult), Some(reviewResult), Some(testResult)));
    }
    return Pass(Round(Some(codeGenResult), Some(reviewResult), Some(testResult)));
  }

  /** The `while` loop of `processIssue`, from no rounds made. */
  method RunLoop(ag: Agents, first: Option<Task>) returns (e: LoopEnd)
    ensures e == Loop(ag, first, 0, Start)
  {
    var iterations := 0;
    var st := Start;
    while iterations < MaxIterations
      invariant iterations <= MaxIterations
      invariant Loop(ag, first, 0, Start) == Loop(ag, first, iterations, st)
    {
      iterations := iterations + 1;
      var step := RunRound(ag, first, iterations, st);
      LoopUnfold(ag, first, iterations - 1, st);
      match step {
        case Abort(msg) =>
          return Aborted(iterations, msg);
        case Next(st') =>
          st := st';
        case Pass(st') =>
          return Finished(iterations, st');
      }
    }
    return Finished(iterations, st);
  }

  /** `processIssue(issue)`. The check for a missing code generation or
      review result after the loop cannot fire, because every round that
      does not throw sets both, as the loop's contract records. */
  method ProcessIssue(ag: Agents, issue: Issue) returns (r: Orchestration)
    ensures r == Process(ag, issue)
  {
    var iterations := 0;
    var issueAnalysis := ag.analyze(issue);
    if !issueAnalysis.success {
      return Failed(issue, iterations, Failure("Issue分析失敗: ", issueAnalysis.error));
    }
    var coordinationResult := ag.coordinate(issue);
    if !coordinationResult.success || coordinationResult.data.None? {
      return Failed(issue, iterations, Failure("タスク分解失敗: ", coordinationResult.error));
    }
    var executionPlan := coordinationResult.data.value.plan;
    var loop := RunLoop(ag, FirstTask(coordinationResult.data.value.tasks));
    if loop.Aborted? {
      return Failed(issue, loop.rounds, loop.message);
    }
    iterations := loop.rounds;
    var st := loop.state;
    var prResult := ag.pr(PRAgent.PRInput(issue, st.codeGen.value, st.review.value));
    if !prResult.success || prResult.data.None? {
      return Failed(issue, iterations, Failure("PR作成失敗: ", prResult.error));
    }
    return Orchestration(true, issue.number, Some(executionPlan), st.codeGen, st.review, st.test,
                         Some(DraftUrl), iterations, None);
  }

  /** A round only looks at the test result it starts with: the code and
      review a round leaves behind, fixed or not, are replaced when the next
      round generates afresh. */
  lemma RoundForgetsCode(ag: Agents, first: Option<Task>, k: nat, st: Round, codeGen: Option<CodeGenResult>, review: Option<ReviewResult>)
    ensures Attempt(ag, first, k, st) == Attempt(ag, first, k, st.(codeGen := codeGen, review := review))
  {
  }

  /** Round k reached review score `rv` on the code `cg` it generated. */
  predicate Reviewed(ag: Agents, first: Option<Task>, k: nat, cg: CodeGenResult, rv: ReviewResult)
  {
    var reply := ag.generate(k, first);
    reply.success && reply.data == Some(cg) &&
    ag.review(cg).success && ag.review(cg).data == Some(rv)
  }

  /** A score below 80 ends the round before the tests: neither the test
      agent, the MCP tests nor the fixer is consulted, and the test result
      of the previous round is kept. */
  lemma LowScoreSkipsTests(ag: Agents, first: Option<Task>, k: nat, st: Round, cg: CodeGenResult, rv: ReviewResult,
                           test: CodeGenResult -> AgentResult<TestResult, TestAgent.TestMeta>,
                           mcp: (nat, CodeGenResult) -> seq<TestError>,
                           repair: (nat, seq<TestError>, CodeGenResult) -> Result<CodeGenResult, string>)
    requires Reviewed(ag, first, k, cg, rv) && rv.score < ReviewThreshold
    ensures Attempt(ag, first, k, st) == Next(Round(Some(cg), Some(rv), st.test))
    ensures Attempt(ag.(test := test, mcp := mcp, repair := repair), first, k, st) == Attempt(ag, first, k, st)
  {
  }

  /** Once the tests ran, the errors the round goes on with are the test
      agent's followed by the MCP errors, and any MCP error keeps the round
      from passing. */
  lemma McpErrorsAppended(ag: Agents, first: Option<Task>, k: nat, st: Round, cg: CodeGenResult, rv: ReviewResult, t0: TestResult)
    requires Reviewed(ag, first, k, cg, rv) && rv.score >= ReviewThreshold
    requires ag.test(cg).success && ag.test(cg).data == Some(t0)
    ensures var s := Attempt(ag, first, k, st);
      !s.Abort? && s.state.review == Some(rv) &&
      s.state.test == Some(t0.(errors := t0.errors + ag.mcp(k, cg))) &&
      (ag.mcp(k, cg) != [] ==> s.Next?)
  {
  }

  /** With errors left the round asks for a fix and goes on to the next
      round either way: a fix that throws is swallowed and the generated
      code kept, a fix that succeeds replaces it. */
  lemma FixNeverAborts(ag: Agents, first: Option<Task>, k: nat, st: Round, cg: CodeGenResult, rv: ReviewResult, t0: TestResult)
    requires Reviewed(ag, first, k, cg, rv) && rv.score >= ReviewThreshold
    requires ag.test(cg).success && ag.test(cg).data == Some(t0)
    requires t0.errors + ag.mcp(k, cg) != []
    ensures var s := Attempt(ag, first, k, st);
      var fixed := ag.repair(k, t0.errors + ag.mcp(k, cg), cg);
      s.Next? && s.state.codeGen == Some(if fixed.Ok? then fixed.value else cg)
  {
  }

  /** A round passes exactly when code generation, review and tests
      succeed and the score, the errors with the MCP errors appended and the
      coverage all meet the gates. */
  lemma PassIffGates(ag: Agents, first: Option<Task>, k: nat, st: Round)
    ensures Attempt(ag, first, k, st).Pass? <==>
      var reply := ag.generate(k, first);
      reply.success && reply.data.Some? &&
      var cg := reply.data.value;
      ag.review(cg).success && ag.review(cg).data.Some? &&
      ag.test(cg).success && ag.test(cg).data.Some? &&
      var t0 := ag.test(cg).data.value;
      Gates(ag.review(cg).data.value, t0.(errors := t0.errors + ag.mcp(k, cg)))
  {
  }

  /** Agents that give every round the same answers make the same loop. */
  lemma {:induction false} SameRounds(ag: Agents, ag': Agents, first: Option<Task>, done: nat, st: Round)
    requires done <= MaxIterations
    requires ag'.generate == ag.generate && ag'.review == ag.review && ag'.test == ag.test
    requires ag'.mcp == ag.mcp && ag'.repair == ag.repair
    ensures Loop(ag', first, done, st) == Loop(ag, first, done, st)
    decreases MaxIterations - done
  {
    if done < MaxIterations {
      var s := Attempt(ag, first, done + 1, st);
      assert Attempt(ag', first, done + 1, st) == s;
      if s.Next? {
        SameRounds(ag, ag', first, done + 1, s.state);
      }
    }
  }

  /** Code generation only ever sees `tasks[0]`: two coordinators that
      agree on success, the plan and the first task give the same result,
      whatever the other tasks are. */
  lemma OnlyFirstTaskMatters(ag: Agents, issue: Issue,
                             coordinate: Issue -> AgentResult<CoordinatorAgent.CoordinatorData, CoordinatorAgent.CoordinatorMeta>)
    requires var c, c' := ag.coordinate(issue), coordinate(issue);
      c.success == c'.success && c.data.Some? == c'.data.Some? && c.error == c'.error &&
      (c.data.Some? ==> c.data.value.plan == c'.data.value.plan &&
                        FirstTask(c.data.value.tasks) == FirstTask(c'.data.value.tasks))
    ensures Process(ag.(coordinate := coordinate), issue) == Process(ag, issue)
  {
    var c := ag.coordinate(issue);
    if c.data.Some? {
      SameRounds(ag, ag.(coordinate := coordinate), FirstTask(c.data.value.tasks), 0, Start);
    }
  }

  /** Agents whose code generation always succeeds and whose review always
      scores below the gate. */
  ghost predicate AlwaysBelowGate(ag: Agents)
  {
    (forall k, t :: ag.generate(k, t).success && ag.generate(k, t).data.Some?) &&
    (forall cg :: ag.review(cg).success && ag.review(cg).data.Some? && ag.review(cg).data.value.score < ReviewThreshold)
  }

  lemma {:induction false} BelowGateRunsOut(ag: Agents, first: Option<Task>, done: nat, st: Round)
    requires done <= MaxIterations && AlwaysBelowGate(ag)
    ensures var e := Loop(ag, first, done, st);
      e.Finished? && e.rounds == MaxIterations && e.state.test == st.test
    decreases MaxIterations - done
  {
    if done < MaxIterations {
      var reply := ag.generate(done + 1, first);
      var cg := reply.data.value;
      assert Reviewed(ag, first, done + 1, cg, ag.review(cg).data.value);
      var s := Attempt(ag, first, done + 1, st);
      assert s == Next(Round(Some(cg), ag.review(cg).data, st.test));
      BelowGateRunsOut(ag, first, done + 1, s.state);
    }
  }

  /** Running out of rounds is not a failure: when no round ever reaches the
      review gate, the run still succeeds once the pull request is made,
      after all five rounds and without a test result. */
  lemma ExhaustionSucceeds(ag: Agents, issue: Issue)
    requires AlwaysBelowGate(ag)
    requires ag.analyze(issue).success && ag.coordinate(issue).success && ag.coordinate(issue).data.Some?
    requires forall input :: ag.pr(input).success && ag.pr(input).data.Some?
    ensures var r := Process(ag, issue);
      r.success && r.iterations == MaxIterations && r.testResult.None?
  {
    BelowGateRunsOut(ag, FirstTask(ag.coordinate(issue).data.value.tasks), 0, Start);
  }

  /** The agents of this model as `processIssue` sees them, with durations 0. */
  function RealAnalyze(issue: Issue): AgentResult<IssueAgent.IssueData, IssueAgent.IssueMeta>
  {
    ResultOf("IssueAgent", IssueAgent.IssueOutcome(issue), 0)
  }

  ghost function RealCoordinate(issue: Issue): AgentResult<CoordinatorAgent.CoordinatorData, CoordinatorAgent.CoordinatorMeta>
  {
    ResultOf("CoordinatorAgent", CoordinatorAgent.RunOutcome(issue), 0)
  }

  function RealReview(cg: CodeGenResult): AgentResult<ReviewResult, Review.ReviewMeta>
  {
    ResultOf("ReviewAgent", Review.ReviewOutcome(cg), 0)
  }

  function RealTest(cg: CodeGenResult): AgentResult<TestResult, TestAgent.TestMeta>
  {
    ResultOf("TestAgent", TestAgent.TestOutcome(cg, TestAgent.AutoFix), 0)
  }

  function RealPR(input: PRAgent.PRInput): AgentResult<PRAgent.PRData, PRAgent.PRMeta>
  {
    ResultOf("PRAgent", PRAgent.PROutcome(input), 0)
  }

  /** The repair step as `processIssue` runs it in round k: `analyzeErrors`
      on the errors, then `fixErrors` on that feedback, with CodeGenAgent's
      `execute` (called with the round number) as `fix`. The fix task is
      `P0-Critical` exactly when a runtime or assertion error is among the
      errors and `P1-High` otherwise; the repair fails exactly when the fix
      reply fails or has no data, and otherwise gives the generated files
      merged with the fixed ones. */
  function RealRepair(fix: (nat, Task) -> CodeGenReply, k: nat, errors: seq<TestError>, cg: CodeGenResult): (r: Result<CodeGenResult, string>)
    ensures var task := Feedback.FixTask(Feedback.FeedbackOf(errors));
      var reply := fix(k, task);
      (task.priority == P0Critical <==> exists e :: e in errors && Feedback.IsCritical(e)) &&
      (task.priority == P1High <==> !exists e :: e in errors && Feedback.IsCritical(e)) &&
      (r.Err? <==> !reply.success || reply.data.None?) &&
      (r.Ok? ==> reply.data.Some? && r.value.files == Feedback.MergedFiles(cg.files, reply.data.value.files))
  {
    var fb := Feedback.FeedbackOf(errors);
    assert fb.priority == Feedback.PriorityOf(errors);
    Feedback.FixOutcome(fb, cg, fix(k, Feedback.FixTask(fb)))
  }

  /** `RealRepair` as the `repair` stage of the agents. */
  function Repairer(fix: (nat, Task) -> CodeGenReply): (nat, seq<TestError>, CodeGenResult) -> Result<CodeGenResult, string>
  {
    (k: nat, errors: seq<TestError>, cg: CodeGenResult) => RealRepair(fix, k, errors, cg)
  }

  /** Agents whose review and test stages always answer with a result. */
  ghost predicate StagesAnswer(ag: Agents)
  {
    (forall cg :: ag.review(cg).success && ag.review(cg).data.Some?) &&
    (forall cg :: ag.test(cg).success && ag.test(cg).data.Some?)
  }

  /** When review and tests always answer, the only stage that can end the
      loop with a failure is code generation, and the message is its error. */
  lemma {:induction false} OnlyGenerationAborts(ag: Agents, first: Option<Task>, done: nat, st: Round)
    requires done <= MaxIterations && StagesAnswer(ag)
    ensures var e := Loop(ag, first, done, st);
      e.Aborted? ==> e.message == Failure("コード生成失敗: ", ag.generate(e.rounds, first).error)
    decreases MaxIterations - done
  {
    if done < MaxIterations {
      var reply := ag.generate(done + 1, first);
      if reply.success && reply.data.Some? {
        var cg := reply.data.value;
        assert ag.review(cg).success && ag.review(cg).data.Some?;
        assert ag.test(cg).success && ag.test(cg).data.Some?;
      }
      var s := Attempt(ag, first, done + 1, st);
      LoopUnfold(ag, first, done, st);
      if s.Next? {
        OnlyGenerationAborts(ag, first, done + 1, s.state);
      }
    }
  }

  /** A run whose analysis, decomposition, review, tests and pull request
      always answer fails only in code generation. */
  lemma FailsOnlyInCodeGen(ag: Agents, issue: Issue)
    requires ag.analyze(issue).success && ag.coordinate(issue).success && ag.coordinate(issue).data.Some?
    requires StagesAnswer(ag)
    requires forall input :: ag.pr(input).success && ag.pr(input).data.Some?
    ensures var r := Process(ag, issue);
      var first := FirstTask(ag.coordinate(issue).data.value.tasks);
      !r.success ==> 1 <= r.iterations && r.error == Some(Failure("コード生成失敗: ", ag.generate(r.iterations, first).error))
  {
    OnlyGenerationAborts(ag, FirstTask(ag.coordinate(issue).data.value.tasks), 0, Start);
  }

  lemma RealStagesAnswer(cg: CodeGenResult)
    ensures RealReview(cg).success && RealReview(cg).data.Some?
    ensures RealTest(cg).success && RealTest(cg).data.Some?
  {
    TestAgent.OneRound(cg);
  }

  lemma RealFrontAnswers(issue: Issue)
    ensures RealAnalyze(issue).success
    ensures RealCoordinate(issue).success && RealCoordinate(issue).data.Some?
    ensures RealCoordinate(issue).data.value.tasks == CoordinatorTasks.Decompose(issue)
  {
    IssueAgent.IssueSpec(issue);
    CoordinatorAgent.RunSpec(issue);
  }

  lemma RealPRAnswers(input: PRAgent.PRInput)
    ensures RealPR(input).success && RealPR(input).data.Some?
  {
    PRAgent.PRSpec(input);
  }

  lemma RealAnswers(ag: Agents)
    requires ag.review == RealReview && ag.test == RealTest && ag.pr == RealPR
    ensures StagesAnswer(ag)
    ensures forall input :: ag.pr(input).success && ag.pr(input).data.Some?
  {
    forall cg: CodeGenResult
      ensures ag.review(cg).success && ag.review(cg).data.Some? && ag.test(cg).success && ag.test(cg).data.Some?
    {
      RealStagesAnswer(cg);
    }
    forall input: PRAgent.PRInput
      ensures ag.pr(input).success && ag.pr(input).data.Some?
    {
      RealPRAnswers(input);
    }
  }

  /** With this model's agents, issue analysis, task decomposition, review,
      tests and the pull request always succeed: a run fails only when
      CodeGenAgent does, with its error as the message, and code generation
      is asked for the first task of the decomposed issue. */
  lemma RealRunFailsOnlyInCodeGen(ag: Agents, fix: (nat, Task) -> CodeGenReply, issue: Issue)
    requires ag.analyze == RealAnalyze && ag.coordinate == RealCoordinate
    requires ag.review == RealReview && ag.test == RealTest && ag.pr == RealPR
    requires ag.repair == Repairer(fix)
    ensures var r := Process(ag, issue);
      var first := FirstTask(CoordinatorTasks.Decompose(issue));
      !r.success ==> 1 <= r.iterations && r.error == Some(Failure("コード生成失敗: ", ag.generate(r.iterations, first).error))
  {
    RealFrontAnswers(issue);
    RealAnswers(ag);
    FailsOnlyInCodeGen(ag, issue);
  }
}
