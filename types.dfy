/** The records the agents exchange: tasks, DAG nodes, execution plans,
    issues, generated code, review and test results. */
module AgentTypes {
  import opened Wrappers

  datatype AgentStatus = Idle | Running | Completed | Failed

  datatype TaskType = Feature | Bug | Refactor | Docs | Test | Chore | Security

  datatype TaskPriority = P0Critical | P1High | P2Medium | P3Low

  /** Seven task states; there is no `blocked` state. */
  datatype TaskStatus = Pending | Analyzing | Implementing | Reviewing | Testing | Deploying | Done

  datatype TaskComplexity = Small | Medium | Large | XLarge

  /** `dependencies` holds task ids; `estimatedDuration` is optional (milliseconds). */
  datatype Task = Task(
    id: string,
    title: string,
    description: string,
    kind: TaskType,
    priority: TaskPriority,
    status: TaskStatus,
    dependencies: seq<string>,
    estimatedDuration: Option<int>,
    complexity: TaskComplexity)

  /** A task placed in the DAG; level 0 is the first parallel level. */
  datatype DAGNode = DAGNode(taskId: string, level: int, dependencies: seq<string>, task: Task)

  datatype ExecutionPlan = ExecutionPlan(
    totalTasks: nat,
    levels: nat,
    parallelGroups: seq<seq<DAGNode>>,
    criticalPath: seq<string>,
    estimatedDuration: int)

  /** The fields of a GitHub issue that the agents read. */
  datatype Issue = Issue(number: int, title: string, body: string, labels: seq<string>)

  datatype GeneratedFile = GeneratedFile(path: string, content: string, language: string)

  datatype CodeGenResult = CodeGenResult(files: seq<GeneratedFile>, summary: string, qualityScore: Option<int>)

  datatype Severity = Error | Warning | Info

  datatype ReviewIssue = ReviewIssue(file: string, line: int, severity: Severity, message: string, rule: Option<string>)

  /** `score` is documented as lying in 0-100 and `passed` as "score at least 80". */
  datatype ReviewResult = ReviewResult(score: int, passed: bool, issues: seq<ReviewIssue>, summary: string)

  /** A closed three-way union, so a switch over it is exhaustive. */
  datatype TestErrorType = Console | Runtime | Assertion

  datatype TestError = TestError(
    kind: TestErrorType,
    message: string,
    stack: Option<string>,
    file: Option<string>,
    line: Option<int>)

  /** Coverage is a percentage. */
  datatype TestResult = TestResult(passed: bool, coverage: real, errors: seq<TestError>)
}
