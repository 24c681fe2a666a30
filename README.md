# miyabi-ax: a verified model of the issue-to-pull-request pipeline

miyabi-ax is a TypeScript tool built from cooperating agents. It takes a GitHub issue and turns it towards a draft pull request.
- The issue agent classifies the issue and suggests labels.
- The coordinator splits the issue body into tasks. It infers their dependencies, levels them into a DAG, checks the DAG for cycles and builds an execution plan.
- The orchestrator then runs a quality-gated loop of at most five rounds: generate code, review it, test it, and on test errors analyse them and ask for a fix.
- At the end the PR agent names a Conventional Commits title and a branch.

Around this core sit:
- a base agent with an `idle/running/completed/failed` status machine;
- a deployment agent with a bounded health-check retry and a rollback decision;
- a table of 53 repository labels with the create/update/skip tally that provisions them;
- the CLI's `--issue` parsing and command dispatch.

This project models that core in Dafny, one module per source file, and proves what the code promises about it.
- Code that loops or updates state in place is a `method` with a `while` or `for` loop. Its `ensures` ties the result to a specification function.
  - `BaseAgent.execute` is a class whose method updates the status and the timestamps.
- The properties are proved as lemmas about those functions.
- Collaborators that are not part of the core are parameters:
  - code generation (the code-generation agent, which is not part of this model);
  - the MCP browser errors;
  - the health probe;
  - the GitHub label calls;
  - the clock.

Each collaborator is a function from its inputs (and, in the loop, the round number) to what it answered or threw.

| module | file | source |
|---|---|---|
| `Wrappers`, `AgentTypes` | `wrappers.dfy`, `types.dfy` | `src/types/agent.ts` |
| `Text`, `OrderedMaps` | `text.dfy`, `ordered_map.dfy` | the JavaScript string, `Set` and `Map` operations the code uses |
| `BaseAgent` | `base_agent.dfy` | `src/core/BaseAgent.ts` |
| `Keywords` | `keywords.dfy` | the first-match `includes` chains of the agents |
| `CoordinatorTasks`, `CoordinatorDag`, `CoordinatorCycle`, `CoordinatorPlan`, `CoordinatorAgent` | `coordinator_*.dfy` | `src/agents/CoordinatorAgent.ts` |
| `CoordinatorExample` | `coordinator_example.dfy` | the mock issue of `src/cli/commands/agent.ts` run through the coordinator |
| `Orchestrator` | `orchestrator.dfy` | `src/core/AgentOrchestrator.ts` |
| `Feedback` | `feedback.dfy` | `src/core/ErrorFeedbackLoop.ts` |
| `Review`, `TestAgent`, `PRAgent`, `IssueAgent`, `Deployment` | one file each | the agents of `src/agents/` |
| `Labels` | `labels.dfy` | `src/github/labels.ts` |
| `Cli` | `cli.dfy` | `src/cli/index.ts` |

## What the code does

The model follows the code in these points:
- Task decomposition raises no error for duplicate ids or missing dependencies. A dependency on an id with no task is simply ignored when levels are computed.
- `calculateLevel` is plain recursion without memoisation. It runs before the cycle check, so it terminates only on input without a cycle. The model gives it a rank measure as its precondition. `CoordinatorAgent.DecomposedRanked` proves that every decomposed issue admits one.
- The cycle check is a visited/recursion-stack search that answers a boolean. It does not return the cycle.
- The "critical path" is the first node found at each level. It is not a longest path and not necessarily a dependency chain.
- `TaskStatus` has seven states and no `blocked`.
- Exhausting the orchestrator's five rounds is not a failure state: the run goes on to the PR stage.

## Model

| member | source | states |
|---|---|---|
| BaseAgent.DurationOf | src/core/BaseAgent.ts:61-64 | `getDuration`: 0 unless both timestamps are truthy (present and non-zero), otherwise end minus start |
| BaseAgent.ResultOf | src/core/BaseAgent.ts:34-49 | the result `execute` builds: `agentName` and `duration` always set; `success` exactly when `run` returned; a throw gives the message as `error` and no data or metadata; a return passes its `data`, `error` and `metadata` through, so a returned `error` sits on a successful result |
| BaseAgent.FinalStatus | src/core/BaseAgent.ts:26-42 | the status left behind is `completed` exactly when `run` returned and `failed` exactly when it threw |
| BaseAgent.Agent.constructor | src/core/BaseAgent.ts:13-20 | a new agent keeps its configured name, is `idle` and has no timestamps |
| BaseAgent.Agent.Duration | src/core/BaseAgent.ts:61-64 | `getDuration` on the agent's own timestamps, with the same two cases as `DurationOf` |
| BaseAgent.Agent.Execute | src/core/BaseAgent.ts:25-51 | `execute`: records both clock readings, ends in the status `FinalStatus` gives and returns `ResultOf` with the measured duration |
| Deployment.FirstHealthy | src/agents/DeploymentAgent.ts:117-127 | the first attempt from `from` to 3 whose probe is healthy, and no healthy probe before it; none when every remaining attempt fails |
| Deployment.HealthCheck | src/agents/DeploymentAgent.ts:109-140 | the retry loop returns the report `HealthSpec` describes: verdict, probes made and waits slept |
| Deployment.HealthSpecFacts | src/agents/DeploymentAgent.ts:109-139 | no URL: healthy with no probe; otherwise at most 3 probes, one wait fewer than probes, stops at the first healthy answer, and unhealthy exactly when all 3 attempts failed |
| Deployment.ThrowIsFailure | src/agents/DeploymentAgent.ts:128-130 | a probe that throws is treated exactly like one that answers unhealthy |
| Deployment.Run | src/agents/DeploymentAgent.ts:33-69 | `run` returns `DeployOutcome`: the rollback object with its message, or the deployment with its id and health verdict |
| Deployment.RollbackDecision | src/agents/DeploymentAgent.ts:45-68 | rolled back exactly when unhealthy and `rollbackOnFailure`; the rollback message is the error exactly then; a deployment reports `healthCheckPassed` equal to the verdict; `execute` reports success in both cases |
| Deployment.MockNeverRollsBack | src/agents/DeploymentAgent.ts:145-149 | with the stub probe that always answers healthy, nothing is ever rolled back |
| Keywords.FirstFiring | src/agents/IssueAgent.ts:89-100 | the index of the first rule whose keyword text occurs, with no earlier rule firing; none when no rule fires |
| Keywords.Classify | src/agents/IssueAgent.ts:89-100 | a first-match `if` chain: the first firing rule's answer, or the fallback when none fires |
| Keywords.ClassifyExactly | src/agents/IssueAgent.ts:89-100 | an answer only rule i gives comes out exactly when rule i fires and no earlier rule does |
| Keywords.ClassifyFallback | src/agents/IssueAgent.ts:99 | a fallback no rule gives comes out exactly when no rule fires |
| Keywords.ClassifySkipSilent | src/agents/IssueAgent.ts:89-100 | removing a rule that does not fire on the text does not change the answer |
| Keywords.ClassifyDropLast | src/agents/IssueAgent.ts:98-99 | a last rule whose answer equals the fallback can be dropped |
| Keywords.IssueText | src/agents/IssueAgent.ts:90 | the lowered `title + ' ' + body` the classifiers search |
| Labels.TableShape | src/github/labels.ts:2-90 | `MIYABI_LABELS` has exactly 53 entries, with pairwise distinct names, each of the form `prefix:value`, and every color six hexadecimal digits |
| Labels.LabelOkShape | src/github/labels.ts:17-90 | a table entry that passes the entry check has a name of the form `prefix:value` |
| Labels.Snapshot | src/github/labels.ts:106-112 | the set of existing names is exactly the names on the first page of 100 listed labels |
| Labels.DispositionOf | src/github/labels.ts:115-145 | one label: an update only when its name was listed, a create only when it was not, and the loop aborts exactly when that call fails with a status other than 422 |
| Labels.Provision | src/github/labels.ts:114-148 | the tally after a list of labels, or the first aborting error; on normal return created + updated + skipped equals the number of labels |
| Labels.ProvisionErrSticks | src/github/labels.ts:142-144 | once a label's call has thrown, the labels after it change nothing |
| Labels.ProvisionLoop | src/github/labels.ts:114-146 | the `for` loop with its three counters computes `Provision` |
| Labels.SetupLabels | src/github/labels.ts:95-149 | `setupLabels` returns `Setup`: the listing's error, or the loop's result over the table |
| Labels.FirstAborted | src/github/labels.ts:137-145 | the first label whose call aborts the loop, with no abort before it |
| Labels.ProvisionCounts | src/github/labels.ts:111-148 | each label is handled once in table order: the loop fails with the first aborting label's error, otherwise returns the counts of created, updated and skipped labels |
| Labels.ProvisionFails | src/github/labels.ts:137-145 | the loop throws exactly when some call fails with a status other than 422 |
| Labels.CountIn | src/github/labels.ts:116 | how many labels have a listed name; all of them or none in the two extreme cases |
| Labels.AllCallsSucceed | src/github/labels.ts:114-136 | when every call succeeds, the listed labels are updated, the others created, and none skipped |
| Labels.SetupTotals | src/github/labels.ts:100-148 | on normal return the three counters add up to 53 |
| Labels.FreshRepository | src/github/labels.ts:114-136 | a repository with no labels and calls that all succeed gets all 53 created |
| Labels.Names | src/github/labels.ts:112 | the names of a list of labels, in order |
| Labels.RerunUpdatesAll | src/github/labels.ts:114-126 | running again on a repository that lists the 53 names updates all 53 |
| Cli.SkipSpace | src/cli/index.ts:147 | `parseInt` first drops leading white space |
| Cli.DigitPrefix | src/cli/index.ts:147 | the longest run of decimal digits at the start of a string |
| Cli.ParseInt | src/cli/index.ts:147 | `parseInt(s, 10)` is NaN exactly when, after the leading white space and an optional sign, no decimal digit follows |
| Cli.ParseTrimmed | src/cli/index.ts:147-148 | `parseInt` after white space: no number exactly when no digit follows the optional sign |
| Cli.ParsePlain | src/cli/index.ts:147 | digits followed by a non-digit parse as the digits' value ("42x" gives 42) |
| Cli.ParseMinus | src/cli/index.ts:147 | a minus sign before the digits negates the value ("-3" gives -3) |
| Cli.ParseSkipsSpace | src/cli/index.ts:147 | leading white space does not change the result |
| Cli.ParseRoundTrip | src/cli/index.ts:147 | the decimal numeral of n, with or without a minus sign, parses back to n or -n |
| Cli.ParseIntToString | src/cli/index.ts:147 | `parseInt(String(n))` gives back every integer n |
| Cli.FirstIndex | src/cli/index.ts:145 | `indexOf`: the first position holding the string, and none exactly when it is absent |
| Cli.ParseIssueNumber | src/cli/index.ts:144-151 | `parseIssueNumber`: none when `--issue` is absent |
| Cli.FirstFlagDecides | src/cli/index.ts:145-150 | only the first `--issue` counts: none when it is the last argument or its argument is "", otherwise `parseInt` of its argument |
| Cli.FlagThenNumber | src/cli/index.ts:145-148 | `--issue` followed by a numeral gives that number, signed when preceded by a minus |
| Cli.AgentRun | src/cli/index.ts:95-102 | `agent-run` either runs the agent or stops for a missing issue number |
| Cli.Dispatch | src/cli/index.ts:14-43 | the `switch` on the first argument: `agent-run`, the three help and the three version aliases select their command, and any other first argument or none is an unknown command |
| Cli.ExitCode | src/cli/index.ts:38-43 | the exit code is 0 or 1, and 1 exactly for an unknown command (the default branch) or a refused issue number (`process.exit(1)` of `agent-run`) |
| Cli.DispatchCases | src/cli/index.ts:19-43 | `help`/`--help`/`-h` and `version`/`--version`/`-v` are aliases; an unknown or missing command shows help and exits 1 |
| Cli.AgentRunGuard | src/cli/index.ts:95-102 | `agent-run` runs exactly when the issue number parses to a non-zero value, with that number, and exits 1 exactly when it is missing or 0 |
| Cli.AgentRunFlag | src/cli/index.ts:96-102 | `agent-run --issue x` for non-empty x: no number or 0 is refused; any other number, negative included, is run |
| Cli.DocumentedInvocation | src/cli/index.ts:120-141 | `agent-run --issue 123` runs the agent on issue 123 |
| Cli.NegativeIssueRuns | src/cli/index.ts:96-102 | `--issue -3` passes the guard and runs issue -3 |
| Cli.ZeroIssueRefused | src/cli/index.ts:98-101 | `--issue 0` and `--issue x` are both refused as missing |
| CoordinatorTasks.TaskIdInjective | src/agents/CoordinatorAgent.ts:83 | the ids `task-${n}` of different numbers are different |
| CoordinatorTasks.FirstCheckbox | src/agents/CoordinatorAgent.ts:79 | the leftmost place where `- [ ] ` followed by a character other than a line terminator starts, and no match before it |
| CoordinatorTasks.LineEnd | src/agents/CoordinatorAgent.ts:79 | how far `(.+)` reaches: the first line terminator at or after j, or the end of the line |
| CoordinatorTasks.TitleOf | src/agents/CoordinatorAgent.ts:79-81 | a line gives a title exactly when the checkbox pattern matches somewhere in it |
| CoordinatorTasks.InferTaskType | src/agents/CoordinatorAgent.ts:233-241 | `bug` exactly when `bug` or `fix` occurs; each later type exactly when its keyword occurs and no earlier group's does; `feature` exactly when no keyword occurs |
| CoordinatorTasks.InferPriority | src/agents/CoordinatorAgent.ts:246-251 | the first of `P0-Critical`, `P1-High`, `P3-Low` among the issue's labels, each stated both ways |
| CoordinatorTasks.InferComplexity | src/agents/CoordinatorAgent.ts:256-262 | `xlarge` exactly when `大規模` or `アーキテクチャ` occurs; `large`, `medium` and `small` exactly when their group is the first to match, `small` when none does |
| CoordinatorTasks.EstimateDuration | src/agents/CoordinatorAgent.ts:267-273 | one of the four durations; one hour exactly when `大規模` or `フレームワーク` occurs, five minutes exactly when no keyword occurs |
| CoordinatorTasks.AllBefore | src/agents/CoordinatorAgent.ts:290-294 | the ids `task-1` to `task-(n-1)` in order |
| CoordinatorTasks.Dependencies | src/agents/CoordinatorAgent.ts:278-298 | none for task 1; the previous task for a test title; all earlier tasks for a deploy title; none otherwise; and only ids of strictly earlier tasks |
| CoordinatorTasks.InferDependencies | src/agents/CoordinatorAgent.ts:278-298 | the loop that builds the deploy dependencies computes `Dependencies` |
| CoordinatorTasks.DecomposeTasks | src/agents/CoordinatorAgent.ts:69-98 | the line loop with its `taskId` counter returns `Decompose` |
| CoordinatorTasks.DecomposeSpec | src/agents/CoordinatorAgent.ts:74-95 | one task per checkbox line in line order, ids `task-1` to `task-n`, the trimmed match as title, status `pending`, no dependency for the first task and only earlier ids as dependencies |
| CoordinatorTasks.TasksOfMade | src/agents/CoordinatorAgent.ts:77-95 | the tasks of a list of lines are the tasks made from its titles, numbered from 1 |
| CoordinatorTasks.MadeTask | src/agents/CoordinatorAgent.ts:82-92 | the n-th task has id `task-n`, the title, status `pending` and only earlier ids as dependencies |
| CoordinatorDag.TaskMap | src/agents/CoordinatorAgent.ts:105 | `new Map(tasks.map(t => [t.id, t]))`: its keys are exactly the ids, each mapped to a task with that id |
| CoordinatorDag.Bound | src/agents/CoordinatorAgent.ts:127-140 | the measure `calculateLevel` decreases on: above the rank of every present dependency |
| CoordinatorDag.LevelSpec | src/agents/CoordinatorAgent.ts:127-140 | on ranked input the level is 0 exactly when no dependency is present in the map, and otherwise one more than the largest level of a present dependency, so above every present dependency's level |
| CoordinatorDag.DepsLevelSpec | src/agents/CoordinatorAgent.ts:130-139 | the inner loop's maximum: above every present dependency's level, 0 exactly when none is present, and attained by one of them |
| CoordinatorDag.CalculateLevel | src/agents/CoordinatorAgent.ts:127-140 | the recursion with its running maximum returns `Level`; it terminates because every present dependency has a smaller rank |
| CoordinatorDag.LevelledNodes | src/agents/CoordinatorAgent.ts:108-116 | one node per task in task order, carrying the task's level |
| CoordinatorDag.AtLevel | src/agents/CoordinatorAgent.ts:119 | the nodes of one level, in order |
| CoordinatorDag.AtLevelAppend | src/agents/CoordinatorAgent.ts:119 | taking one level distributes over concatenation |
| CoordinatorDag.InsertPerm | src/agents/CoordinatorAgent.ts:119 | inserting a node adds exactly that node |
| CoordinatorDag.InsertSorted | src/agents/CoordinatorAgent.ts:119 | inserting into a list sorted by level keeps it sorted |
| CoordinatorDag.InsertAtLevel | src/agents/CoordinatorAgent.ts:119 | inserting places the node after every node of its own level: the sort is stable |
| CoordinatorDag.SortByLevel | src/agents/CoordinatorAgent.ts:119 | the sort returns a permutation sorted by non-decreasing level |
| CoordinatorDag.SortStable | src/agents/CoordinatorAgent.ts:119 | the sort keeps the input order within each level |
| CoordinatorDag.BuildDAG | src/agents/CoordinatorAgent.ts:103-122 | the loop and sort return `Dag` |
| CoordinatorDag.DagSpec | src/agents/CoordinatorAgent.ts:103-122 | exactly one node per task, sorted by non-decreasing level, in input order within each level, each node carrying its task and that task's level |
| CoordinatorDag.DagNodeOf | src/agents/CoordinatorAgent.ts:110-115 | every node of the DAG is the node of one of the tasks at its level |
| CoordinatorDag.DagHasTask | src/agents/CoordinatorAgent.ts:108-116 | every task has its node in the DAG |
| CoordinatorDag.DagLevels | src/agents/CoordinatorAgent.ts:127-140 | a node of level k > 0 has a dependency node at level k-1, and every present dependency has a node at a lower level |
| CoordinatorDag.DepNode | src/agents/CoordinatorAgent.ts:105-116 | a task id in the map has a node in the DAG at its level |
| CoordinatorCycle.FindNode | src/agents/CoordinatorAgent.ts:153 | `nodes.find` by task id: a node with that id, and none exactly when no node has it |
| CoordinatorCycle.Visit | src/agents/CoordinatorAgent.ts:149-166 | `dfs` marks at least the node it starts from, and keeps the stack inside the visited set |
| CoordinatorCycle.VisitDeps | src/agents/CoordinatorAgent.ts:156-162 | the dependency loop only adds visited marks, and keeps the stack inside the visited set |
| CoordinatorCycle.Dfs | src/agents/CoordinatorAgent.ts:149-166 | the recursive `dfs` over the two mutated sets computes `Visit` |
| CoordinatorCycle.Search | src/agents/CoordinatorAgent.ts:145-175 | the outer loop over the nodes computes `Detects` |
| CoordinatorCycle.DetectCycleAsWritten | src/agents/CoordinatorAgent.ts:145-175 | `detectCycle` as written, with a missing id left on the stack; when every dependency names a node it answers exactly whether a cycle exists |
| CoordinatorCycle.DetectCycle | src/agents/CoordinatorAgent.ts:145-175 | with a missing id taken off the stack again, the answer is true exactly when some task reaches itself through dependencies |
| CoordinatorCycle.VisitSpec | src/agents/CoordinatorAgent.ts:149-166 | the gray/black argument: a visit that reports a cycle has found one, and a visit that does not leaves its start node finished with nothing cyclic among the finished nodes |
| CoordinatorCycle.VisitDepsSpec | src/agents/CoordinatorAgent.ts:156-162 | the same for the dependency loop: on no cycle every dependency ends finished |
| CoordinatorCycle.TopSpec | src/agents/CoordinatorAgent.ts:168-174 | the outer loop answers true exactly when the graph has a cycle |
| CoordinatorCycle.DetectsIffCycle | src/agents/CoordinatorAgent.ts:145-175 | the corrected search answers true exactly when a cycle exists |
| CoordinatorCycle.AsWrittenAgrees | src/agents/CoordinatorAgent.ts:153-154 | without missing ids the code as written and the corrected search agree |
| CoordinatorCycle.RankedNoCycle | src/agents/CoordinatorAgent.ts:278-298 | edges that always go to a strictly smaller rank admit no cycle |
| CoordinatorCycle.DanglingFalseCycle | src/agents/CoordinatorAgent.ts:153-160 | two tasks that share a missing dependency are reported as a cycle by the code as written, though the graph has none |
| CoordinatorAgent.IndexOfId | src/agents/CoordinatorAgent.ts:105 | the first task with a given id |
| CoordinatorAgent.DecomposedShaped | src/agents/CoordinatorAgent.ts:82-89 | the decomposed tasks are numbered `task-1` to `task-n` in order and depend only on earlier ids |
| CoordinatorAgent.DepRankBelow | src/agents/CoordinatorAgent.ts:278-298 | every dependency of a decomposed task is a task with a smaller position |
| CoordinatorAgent.DecomposedRanked | src/agents/CoordinatorAgent.ts:127-140 | decomposed tasks admit a rank on which `calculateLevel` terminates, although `buildDAG` runs before the cycle check |
| CoordinatorAgent.DagOfSound | src/agents/CoordinatorAgent.ts:38-45 | the DAG of an issue has no missing dependency and no cycle, so `run` never throws |
| CoordinatorAgent.DagOfLayered | src/agents/CoordinatorAgent.ts:103-140 | that DAG is sorted by level and its levels are contiguous from 0 |
| CoordinatorAgent.Run | src/agents/CoordinatorAgent.ts:30-64 | `run` returns `RunOutcome`, always with data and metadata and no error |
| CoordinatorAgent.RunSpec | src/agents/CoordinatorAgent.ts:30-64 | the returned tasks are the decomposition, one node per task, `totalTasks` the task count, `levels` the group count, group k exactly the level-k nodes, one critical-path entry per level |
| CoordinatorAgent.AsWrittenHarmless | src/agents/CoordinatorAgent.ts:42-45 | on decomposed issues the cycle check as written never fires |
| CoordinatorPlan.Grouped | src/agents/CoordinatorAgent.ts:182-187 | the level map is a valid insertion-ordered map |
| CoordinatorPlan.GroupedSpec | src/agents/CoordinatorAgent.ts:182-189 | its keys are the distinct levels in first-occurrence order and each level's group is exactly that level's nodes in order |
| CoordinatorPlan.GroupedStep | src/agents/CoordinatorAgent.ts:184-186 | one step of the loop appends the node to its level's group |
| CoordinatorPlan.GroupsSpec | src/agents/CoordinatorAgent.ts:189 | `Array.from(levelMap.values())`: one group per distinct level, in first-occurrence order |
| CoordinatorPlan.LevelsAreRange | src/types/agent.ts:75 | for sorted nodes with contiguous levels the distinct levels are exactly 0, 1, ... |
| CoordinatorPlan.MaxLevel | src/agents/CoordinatorAgent.ts:215 | `Math.max` of the levels: attained and above every level; -1 standing for `-Infinity` when there is no node |
| CoordinatorPlan.FirstAtLevel | src/agents/CoordinatorAgent.ts:220 | `nodes.find` by level: the first node of that level, and none exactly when the level is absent |
| CoordinatorPlan.PathBetweenFull | src/agents/CoordinatorAgent.ts:218-225 | when every level in the range is present the path has one entry per level, the first node of each level, in increasing order |
| CoordinatorPlan.PathBetweenNodes | src/agents/CoordinatorAgent.ts:218-225 | every id on the path belongs to a node with a level in the range |
| CoordinatorPlan.FindCriticalPath | src/agents/CoordinatorAgent.ts:212-228 | the `while` loop with `unshift` returns `CriticalPath`, whose ids are nodes' ids |
| CoordinatorPlan.CriticalPathAt | src/agents/CoordinatorAgent.ts:212-228 | with every level up to the maximum present, entry k of the path is the first node of level k |
| CoordinatorPlan.DurationOf | src/agents/CoordinatorAgent.ts:196-197 | a missing node or duration counts as 0 |
| CoordinatorPlan.PathDuration | src/agents/CoordinatorAgent.ts:195-198 | the `reduce` sum: 0 for an empty path, non-negative when every duration is |
| CoordinatorPlan.PathDurationAppend | src/agents/CoordinatorAgent.ts:195-198 | the sum over a concatenation is the sum of the sums |
| CoordinatorPlan.PathDurationStep | src/agents/CoordinatorAgent.ts:195-198 | one step of the `reduce` |
| CoordinatorPlan.CreateExecutionPlan | src/agents/CoordinatorAgent.ts:180-207 | the grouping loop and the sum return `Plan` |
| CoordinatorPlan.PlanOfLayered | src/agents/CoordinatorAgent.ts:180-207 | for sorted contiguous nodes: `totalTasks` the node count, `levels` the group count, group k exactly the level-k nodes, every node in its level's group, and the critical path the first node of each level, in order |
| CoordinatorPlan.GroupsOfLayered | src/agents/CoordinatorAgent.ts:182-189 | for sorted contiguous nodes group k holds exactly the level-k nodes and the groups partition the nodes |
| CoordinatorPlan.PathOfLayered | src/agents/CoordinatorAgent.ts:212-228 | for sorted contiguous nodes the path has one entry per level, the first node of each, not necessarily a dependency chain |
| CoordinatorExample.MockLines | src/cli/commands/agent.ts:45 | the mock issue's body splits into its three checkbox lines |
| CoordinatorExample.PlainTitle | src/agents/CoordinatorAgent.ts:79-81 | a checkbox line with a four-character title without spaces gives that title |
| CoordinatorExample.PlainTask | src/agents/CoordinatorAgent.ts:267-298 | a title with none of the keywords has no dependency and the five-minute default |
| CoordinatorExample.TitlesAll | src/agents/CoordinatorAgent.ts:77-81 | lines that each hold a checkbox give their titles in line order |
| CoordinatorExample.MockTasks | src/cli/commands/agent.ts:42-51 | the mock issue gives three tasks, the first `task-1`, none with a dependency, each five minutes |
| CoordinatorExample.MockIssueRun | src/cli/commands/agent.ts:42-55 | on the mock issue the coordinator returns 3 tasks and 3 nodes all on level 0, `levels` 1, critical path `[task-1]` and an estimate of 300000 |
| CoordinatorExample.FlatDag | src/agents/CoordinatorAgent.ts:103-122 | tasks without dependencies give one level-0 node each, in task order |
| CoordinatorExample.FlatPlan | src/agents/CoordinatorAgent.ts:180-228 | three level-0 nodes give one level, the first node as critical path and its duration as estimate |
| Orchestrator.FirstTask | src/core/AgentOrchestrator.ts:102-103 | `tasks[0]`: present exactly when there is a task, and then the first one |
| Orchestrator.Attempt | src/core/AgentOrchestrator.ts:100-174 | one round: a round that leaves the loop has a review and a test result that pass both gates, and a round that does not throw has set the code and the review |
| Orchestrator.Loop | src/core/AgentOrchestrator.ts:96-175 | the loop makes at most 5 rounds, a throw comes after at least one more round, a loop that finished early has code and review set, and one that stopped before the fifth round stopped on passing gates |
| Orchestrator.ProcessShape | src/core/AgentOrchestrator.ts:67-226 | every result carries the issue number and at most 5 iterations; a success has made at least one round, carries the plan, code, review and draft URL and no error, and when it stopped early its review and test results pass the gates; a failure carries only its error |
| Orchestrator.LoopUnfold | src/core/AgentOrchestrator.ts:96-97 | `iterations++` before each round: the loop unfolded by one round |
| Orchestrator.RunRound | src/core/AgentOrchestrator.ts:100-174 | the body of the `while` loop computes `Attempt` |
| Orchestrator.RunLoop | src/core/AgentOrchestrator.ts:96-175 | the `while` loop computes `Loop` from no rounds made |
| Orchestrator.ProcessIssue | src/core/AgentOrchestrator.ts:67-226 | `processIssue` returns `Process` |
| Orchestrator.RoundForgetsCode | src/core/AgentOrchestrator.ts:105-118 | a round does not look at the code or review it starts with: a fixed result is overwritten by the next round's regeneration |
| Orchestrator.LowScoreSkipsTests | src/core/AgentOrchestrator.ts:122-126 | a review score below 80 ends the round before testing, keeping the previous test result, whatever the test agent, the MCP tests and the fixer would do |
| Orchestrator.McpErrorsAppended | src/core/AgentOrchestrator.ts:139-145 | the MCP errors are appended after the test agent's errors before the error check, and any MCP error keeps the round from passing |
| Orchestrator.FixNeverAborts | src/core/AgentOrchestrator.ts:148-164 | with errors the round asks for a fix and goes on: a thrown fix is swallowed and the generated code kept, a successful fix replaces it |
| Orchestrator.Gates | src/core/AgentOrchestrator.ts:122-171 | the gates to leave the loop: review score at least 80, no test error and coverage at least 80 |
| Orchestrator.PassIffGates | src/core/AgentOrchestrator.ts:122-174 | a round leaves the loop exactly when all stages answer and score at least 80, no test or MCP error and coverage at least 80 hold in that round |
| Orchestrator.SameRounds | src/core/AgentOrchestrator.ts:96-175 | the loop depends only on the generation, review, test, MCP and fix stages |
| Orchestrator.OnlyFirstTaskMatters | src/core/AgentOrchestrator.ts:102-105 | code generation uses only the first task: coordinators that agree on it and on the plan give the same run |
| Orchestrator.BelowGateRunsOut | src/core/AgentOrchestrator.ts:96-126 | when every round scores below 80 the loop runs all 5 rounds and keeps its test result |
| Orchestrator.ExhaustionSucceeds | src/core/AgentOrchestrator.ts:177-213 | exhausting the 5 rounds is not a failure: the run succeeds after 5 iterations once PR creation succeeds, even with no test result |
| Orchestrator.OnlyGenerationAborts | src/core/AgentOrchestrator.ts:105-133 | when review and test always answer, a thrown loop carries the code-generation error |
| Orchestrator.FailsOnlyInCodeGen | src/core/AgentOrchestrator.ts:67-226 | when analysis, coordination, review, test and PR always answer, a failed run failed in code generation, after at least one round |
| Orchestrator.RealStagesAnswer | src/core/AgentOrchestrator.ts:114-134 | the review and test agents of this repository never throw |
| Orchestrator.RealFrontAnswers | src/core/AgentOrchestrator.ts:76-87 | the issue agent never fails, and the coordinator always returns the decomposition of the issue |
| Orchestrator.RealPRAnswers | src/core/AgentOrchestrator.ts:187-195 | the PR agent always returns data |
| Orchestrator.RealAnswers | src/core/AgentOrchestrator.ts:114-195 | with this repository's review, test and PR agents every stage after generation answers |
| Orchestrator.RealRepair | src/core/AgentOrchestrator.ts:147-161 | the repair step is the error feedback loop: the fix task is `P0-Critical` exactly when some error is critical and `P1-High` otherwise; the repair fails exactly when the fixer fails or gives no data, and otherwise yields the merged files |
| Orchestrator.RealRunFailsOnlyInCodeGen | src/core/AgentOrchestrator.ts:67-226 | with this repository's own agents and error feedback loop, a failed run can only have failed in code generation |
| Feedback.PriorityOf | src/core/ErrorFeedbackLoop.ts:32-36 | `critical` exactly when some error is a runtime or assertion error, `high` exactly when there are errors and all are console errors, `medium` exactly when there is none, and never `low` |
| Feedback.TruthyFiles | src/core/ErrorFeedbackLoop.ts:39 | the non-empty `file` values of the errors, in order |
| Feedback.AffectedFiles | src/core/ErrorFeedbackLoop.ts:39 | exactly the non-empty `file` values, each once |
| Feedback.WordEnd | src/core/ErrorFeedbackLoop.ts:83 | the end of the run of `\w` characters from k |
| Feedback.FirstNameMatch | src/core/ErrorFeedbackLoop.ts:83 | the leftmost place where `'?(\w+)'? is not defined` matches, with no match before it |
| Feedback.VarNameSound | src/core/ErrorFeedbackLoop.ts:83 | a captured name is a non-empty run of word characters followed in the message by ` is not defined`, with or without a quote |
| Feedback.VarNameComplete | src/core/ErrorFeedbackLoop.ts:83 | a word character right before ` is not defined` means the pattern captures a name |
| Feedback.GenericConsoleText | src/core/ErrorFeedbackLoop.ts:104 | the fallback console suggestion quotes the message |
| Feedback.ConsoleSuggestion | src/core/ErrorFeedbackLoop.ts:78-105 | the first matching case decides: `is not defined`, then `Cannot read property`/`properties`, then `is not a function`, otherwise the generic text that quotes the message |
| Feedback.RuntimeSuggestion | src/core/ErrorFeedbackLoop.ts:110-119 | the runtime suggestion quotes the message |
| Feedback.AssertionSuggestion | src/core/ErrorFeedbackLoop.ts:124-131 | the assertion suggestion quotes the message |
| Feedback.SuggestionQuotes | src/core/ErrorFeedbackLoop.ts:59-69 | the suggestion for a runtime or assertion error quotes its message |
| Feedback.Suggestions | src/core/ErrorFeedbackLoop.ts:58-70 | one suggestion per error |
| Feedback.SuggestionsAt | src/core/ErrorFeedbackLoop.ts:58-70 | suggestion i is the suggestion for error i: the switch over the closed union `TestError.type` is exhaustive |
| Feedback.FixSuggestion | src/core/ErrorFeedbackLoop.ts:72 | no error gives "" and one error gives its suggestion alone |
| Feedback.FixSuggestionSnoc | src/core/ErrorFeedbackLoop.ts:72 | one more error adds a blank line and its suggestion |
| Feedback.GenerateFixSuggestion | src/core/ErrorFeedbackLoop.ts:55-73 | the push loop and `join('\n\n')` compute `FixSuggestion` |
| Feedback.AnalyzeErrors | src/core/ErrorFeedbackLoop.ts:30-50 | `analyzeErrors` returns `FeedbackOf` |
| Feedback.FeedbackKeepsErrors | src/core/ErrorFeedbackLoop.ts:44-49 | the feedback carries the input errors unchanged, and is critical exactly when one of them is a runtime or assertion error |
| Feedback.FixTask | src/core/ErrorFeedbackLoop.ts:146-155 | the fix task is a `bug` task with status `implementing` and no dependency, priority `P0-Critical` for critical feedback and `P1-High` otherwise, whose description starts with the fixed preamble |
| Feedback.Entries | src/core/ErrorFeedbackLoop.ts:180 | the `[path, file]` pairs of the files, in order |
| Feedback.Paths | src/core/ErrorFeedbackLoop.ts:180 | the paths of the files, in order |
| Feedback.MergeCodeGenResults | src/core/ErrorFeedbackLoop.ts:179-188 | the map built from the original files and updated in place with each fixed file gives `MergedFiles` |
| Feedback.MergedPaths | src/core/ErrorFeedbackLoop.ts:179-188 | each path of original or fixed appears once, original paths first, then the new fixed paths |
| Feedback.MergeSpec | src/core/ErrorFeedbackLoop.ts:179-188 | each path once in that order; on a path the fixed files have, the last fixed file with it wins; on the others, the last original file with it stays |
| Feedback.LastByPathAppend | src/core/ErrorFeedbackLoop.ts:183-185 | a later file with the same path overrides an earlier one |
| Feedback.FixOutcome | src/core/ErrorFeedbackLoop.ts:158-173 | the fix fails exactly when regeneration fails or gives no data, with `自動修正失敗: ` and the error; otherwise the merged files with the fixed result's `qualityScore` |
| Feedback.FixErrors | src/core/ErrorFeedbackLoop.ts:136-174 | `fixErrors` sends the fix task to the code generator and returns `FixOutcome` of its reply |
| OrderedMaps.Put | src/core/ErrorFeedbackLoop.ts:184 | `Map.set`: a new key goes last, an existing key keeps its place and takes the new value |
| OrderedMaps.FromEntriesSpec | src/core/ErrorFeedbackLoop.ts:180 | `new Map(entries)`: the keys in first-occurrence order, each with the value of its last entry |
| OrderedMaps.Values | src/core/ErrorFeedbackLoop.ts:187 | `Array.from(map.values())`: one value per key, in key order |
| Review.CheckTypeScript | src/agents/ReviewAgent.ts:91-120 | one warning for `: any` and one for `console.log`, each exactly when the content contains it, all on the file |
| Review.CheckLinting | src/agents/ReviewAgent.ts:125-143 | one warning exactly when `split('\n')` gives more than 200 lines, that is when the content has at least 200 newlines |
| Review.SkipSpace | src/agents/ReviewAgent.ts:183-186 | the `\s*` of the patterns: the end of the run of whitespace from k |
| Review.SecretIssuesFor | src/agents/ReviewAgent.ts:189-199 | at most one error per pattern, each on the file |
| Review.SecretIssues | src/agents/ReviewAgent.ts:178-202 | at most four errors, all on the file |
| Review.SecretIssuesForNone | src/agents/ReviewAgent.ts:189-199 | no pattern matching means no issue |
| Review.SecretIssuesForSome | src/agents/ReviewAgent.ts:189-199 | any matching pattern means an issue |
| Review.CheckHardcodedSecrets | src/agents/ReviewAgent.ts:178-202 | the loop over the four patterns computes `SecretIssues` |
| Review.NoAssignmentNoSecret | src/agents/ReviewAgent.ts:182-187 | content without `=` has no secret issue, since every pattern needs one |
| Review.PasswordFound | src/agents/ReviewAgent.ts:185 | `password="v"` with a non-empty unquoted value is reported, wherever it sits in the content |
| Review.PasswordText | src/agents/ReviewAgent.ts:185 | after lower-casing, `password`, `="` and a closing quote are where the pattern looks for them |
| Review.LowerOccurs | src/agents/ReviewAgent.ts:183-186 | the `/i` flag: a lower-case word found in the content is found in its lower-cased form |
| Review.QuotedAt | src/agents/ReviewAgent.ts:185 | `="` followed by a non-quote and later a quote meets `\s*=\s*["'][^"']+["']` |
| Review.CheckSQLInjection | src/agents/ReviewAgent.ts:207-222 | one error exactly when some line has `SELECT` with a `+` after it on the same line (`.` does not cross a line end) |
| Review.NoPlusNoSql | src/agents/ReviewAgent.ts:211 | content without `+` is never flagged |
| Review.SqlFound | src/agents/ReviewAgent.ts:211 | `SELECT`, a stretch without line end, then `+` is flagged |
| Review.RunStaticAnalysis | src/agents/ReviewAgent.ts:68-86 | the per-file loop gives the TypeScript, lint and (empty) style issues of each file in file order |
| Review.RunSecurityScan | src/agents/ReviewAgent.ts:159-173 | the per-file loop gives the secret and SQL issues of each file in file order |
| Review.IssueKinds | src/agents/ReviewAgent.ts:68-173 | every static issue is a warning and every security issue an error, each on one of the reviewed files |
| Review.Count | src/agents/ReviewAgent.ts:231 | `filter(...).length` is at most the number of issues |
| Review.CountAppend | src/agents/ReviewAgent.ts:231-235 | counting is additive over concatenation |
| Review.CountUniform | src/agents/ReviewAgent.ts:231-235 | issues all of one severity count fully there and not at all elsewhere |
| Review.Clamp | src/agents/ReviewAgent.ts:241 | `Math.max(0, Math.min(100, score))` is in 0..100 and is the identity there |
| Review.Score | src/agents/ReviewAgent.ts:227-242 | in 0..100; 0 with no file; otherwise 100 minus 10 per error and 2 per warning, floored at 0 |
| Review.CalculateScore | src/agents/ReviewAgent.ts:227-242 | the method computes `Score` |
| Review.ScoreMonotone | src/agents/ReviewAgent.ts:227-242 | one more issue never raises the score, an info changes nothing, an error costs at most 10 and a warning at most 2 |
| Review.ScoreOrderFree | src/agents/ReviewAgent.ts:227-242 | the order of the issues does not matter |
| Review.Summary | src/agents/ReviewAgent.ts:247-252 | the summary starts with `品質スコア: ` |
| Review.Run | src/agents/ReviewAgent.ts:30-63 | `run` returns `ReviewOutcome` |
| Review.ReviewSpec | src/agents/ReviewAgent.ts:34-53 | the issues are the static then the security issues; the score is in 0..100; passed exactly when the score is at least 80; no file means score 0 and failed; errors are the security issues and warnings the static ones |
| Review.ReviewMetaSpec | src/agents/ReviewAgent.ts:55-62 | the data is the review, no error, and the total equals errors plus warnings |
| Review.PerFileBounds | src/agents/ReviewAgent.ts:91-222 | per file at most 2 TypeScript, 1 lint, 4 secret and 1 SQL issues |
| Review.CleanNoIssues | src/agents/ReviewAgent.ts:68-173 | files with none of the patterns give no issue |
| Review.CleanPasses | src/agents/ReviewAgent.ts:30-53 | clean files, at least one, score 100 and pass |
| TestAgent.TestFileCount | src/agents/TestAgent.ts:158 | the files whose path contains `.test.` are at most all files |
| TestAgent.SourceFileCount | src/agents/TestAgent.ts:159 | the other files are at most all files |
| TestAgent.CountsPartition | src/agents/TestAgent.ts:158-159 | every file is exactly one of test file and source file |
| TestAgent.RatioFacts | src/agents/TestAgent.ts:163-164 | `(t / s) * 100` is non-negative, is 100 t / s, and is below 100 exactly when t < s |
| TestAgent.Coverage | src/agents/TestAgent.ts:153-165 | the coverage is a percentage in 0..100: 0 with no source file, otherwise 100 exactly when there are at least as many test files as source files, and 100 t / s below that |
| TestAgent.CoverageGate | src/agents/TestAgent.ts:47 | coverage reaches 80 exactly when there is a source file and 5 t >= 4 s, so the threshold is decided on whole counts |
| TestAgent.GateCounts | src/agents/TestAgent.ts:47 | the same for any percentage of t over s |
| TestAgent.MoreTestsMoreCoverage | src/agents/TestAgent.ts:153-165 | adding a test file never lowers the coverage |
| TestAgent.GrowCounts | src/agents/TestAgent.ts:163-164 | one more test file over the same source files gives a percentage at least as high |
| TestAgent.UnitErrors | src/agents/TestAgent.ts:109-126 | one assertion error with no file or line exactly when no file is a test file, otherwise none |
| TestAgent.NoTestFiles | src/agents/TestAgent.ts:116-118 | the test file count is 0 exactly when no file is a test file |
| TestAgent.RunTests | src/agents/TestAgent.ts:80-104 | `runTests` computes `TestsOf`: the unit, E2E and console errors, in that order, and the coverage |
| TestAgent.TestsSpec | src/agents/TestAgent.ts:80-104 | passed exactly when there is no error and coverage is at least 80; the errors are the unit-test errors; passed exactly when there is a source file and 5 t >= 4 s |
| TestAgent.Rounds | src/agents/TestAgent.ts:39-61 | between 1 and 5 rounds; exactly 1 when the first round passes or the fix fails |
| TestAgent.RunWith | src/agents/TestAgent.ts:32-75 | the round loop with any fixer returns `TestOutcome`: the last test result, and metadata with the rounds, the coverage and the number of errors |
| TestAgent.Run | src/agents/TestAgent.ts:32-75 | `run` with `autoFix` as written returns `TestOutcome` |
| TestAgent.OneRound | src/agents/TestAgent.ts:170-183 | since `autoFix` answers false, `run` always stops after one round with that round's result |
| PRAgent.InferCommitType | src/agents/PRAgent.ts:83-96 | the commit type is one of the nine Conventional Commits types the chain can answer |
| PRAgent.InferScope | src/agents/PRAgent.ts:101-111 | the scope, when there is one, is one of the five scopes |
| PRAgent.CommitRulesDistinct | src/agents/PRAgent.ts:86-95 | no two branches of the chain answer the same type, and none answers `feat` |
| PRAgent.ScopeRulesDistinct | src/agents/PRAgent.ts:104-110 | no two branches give the same scope, and none gives `null` |
| PRAgent.CommitTypeExactly | src/agents/PRAgent.ts:83-96 | branch i's type comes out exactly when one of its keywords is in the lowered title and body and no earlier branch's is; `feat` exactly when no keyword is |
| PRAgent.ScopeExactly | src/agents/PRAgent.ts:101-111 | scope i comes out exactly when its keyword is found and no earlier one is; `null` exactly when none is |
| PRAgent.GeneratePRTitle | src/agents/PRAgent.ts:69-78 | the title starts with the commit type and ends with the issue title, and has `type(` exactly when there is a scope |
| PRAgent.SkipNonSlug | src/agents/PRAgent.ts:197 | drops the longest prefix outside `[a-z0-9]`, leaving a suffix that starts with a slug character |
| PRAgent.ReplaceRuns | src/agents/PRAgent.ts:197 | `replace(/[^a-z0-9]+/g, '-')`: only `[a-z0-9-]`, never two dashes in a row, empty only for the empty text, and a leading dash exactly when the text starts outside the class |
| PRAgent.TrimDashes | src/agents/PRAgent.ts:198 | `replace(/^-\|-$/g, '')` removes one leading and one trailing dash, the trailing one only when it is not the leading one |
| PRAgent.Slug | src/agents/PRAgent.ts:195-199 | the slug uses only `[a-z0-9-]`, never two dashes in a row, does not start with a dash, and has at most 40 characters |
| PRAgent.TrimDashesShape | src/agents/PRAgent.ts:198 | trimming keeps the alphabet and the no-double-dash property and leaves no leading dash |
| PRAgent.PrefixShape | src/agents/PRAgent.ts:199 | `slice(0, 40)` keeps those properties |
| PRAgent.ReplaceRunsSlugPrefix | src/agents/PRAgent.ts:197 | a prefix of slug characters goes through unchanged |
| PRAgent.ReplaceRunsSpaceThen | src/agents/PRAgent.ts:197 | a space before a slug character becomes a dash |
| PRAgent.LowerSlugText | src/agents/PRAgent.ts:196 | lower-casing leaves slug characters and spaces unchanged |
| PRAgent.LowerSlugId | src/agents/PRAgent.ts:196 | lower-casing leaves slug characters unchanged |
| PRAgent.TrimDashesNone | src/agents/PRAgent.ts:198 | a text that neither starts nor ends with a dash is not trimmed |
| PRAgent.SlugMayEndWithDash | src/agents/PRAgent.ts:198-199 | trimming comes before truncation, so 39 slug characters, a space and one more give a slug that ends with a dash |
| PRAgent.NoWhitespaceAppend | src/agents/PRAgent.ts:201 | concatenation keeps the absence of whitespace |
| PRAgent.CommitTypeNoWhitespace | src/agents/PRAgent.ts:86-95 | no commit type has whitespace |
| PRAgent.IntToStringNoWhitespace | src/agents/PRAgent.ts:201 | a decimal number has no whitespace |
| PRAgent.SlugNoWhitespace | src/agents/PRAgent.ts:195-199 | a slug has no whitespace |
| PRAgent.BranchNoWhitespace | src/agents/PRAgent.ts:201 | the branch template keeps the absence of whitespace |
| PRAgent.SuffixOf | src/agents/PRAgent.ts:201 | the tail of a concatenation is its second part |
| PRAgent.GenerateBranchName | src/agents/PRAgent.ts:192-202 | the branch starts with `type/issue-`, ends with the slug of the title, and has no whitespace |
| PRAgent.FeatureCount | src/agents/PRAgent.ts:170 | the files under `features/` are at most all files |
| PRAgent.TestCount | src/agents/PRAgent.ts:171 | the `.test.` files are at most all files |
| PRAgent.OtherCount | src/agents/PRAgent.ts:172-174 | the remaining files are at most all files |
| PRAgent.BothCount | src/agents/PRAgent.ts:170-171 | files in both categories are at most all files |
| PRAgent.CategoryCounts | src/agents/PRAgent.ts:170-174 | feature, test and other counts add up to all files plus those counted twice, so every file is counted at least once |
| PRAgent.SummaryLines | src/agents/PRAgent.ts:176-184 | at most three lines, and none exactly when there is no file |
| PRAgent.ChangeSummary | src/agents/PRAgent.ts:167-187 | the summary is empty exactly when there is no file |
| PRAgent.JoinNonEmpty | src/agents/PRAgent.ts:186 | with a non-empty separator a join is empty only for no part or one empty part |
| PRAgent.GenerateChangeSummary | src/agents/PRAgent.ts:167-187 | the push-and-join method computes `ChangeSummary` |
| PRAgent.Run | src/agents/PRAgent.ts:34-64 | `run` returns `PROutcome` |
| PRAgent.PRSpec | src/agents/PRAgent.ts:47-63 | the pull request is a draft with no error, its metadata reports the issue number, the number of files and the review score, and its branch has no whitespace |
| IssueAgent.InferType | src/agents/IssueAgent.ts:89-100 | the type is one of the six the chain can answer |
| IssueAgent.TypeRulesDistinct | src/agents/IssueAgent.ts:92-96 | the first five branches answer five different types, none of them `feature` |
| IssueAgent.TypeExactly | src/agents/IssueAgent.ts:89-100 | for each of the first five branches, its type comes out exactly when one of its keywords is in the lowered title and body and no earlier branch's is; `feature` exactly when none of those five fires |
| IssueAgent.EstimatePriorityAsWritten | src/agents/IssueAgent.ts:105-119 | the chain as written answers one of the four priorities |
| IssueAgent.LowWordHoldsHighWord | src/agents/IssueAgent.ts:111-114 | `低優先度` contains `優先` |
| IssueAgent.LowWordShadowed | src/agents/IssueAgent.ts:105-119 | as written, a text with `低優先度` is never `P3-Low`: the `優先` test of `P1-High` comes first |
| IssueAgent.EstimatePriority | src/agents/IssueAgent.ts:105-119 | the corrected chain answers one of the four priorities |
| IssueAgent.LowWordHonoured | src/agents/IssueAgent.ts:114-116 | corrected, `低優先度` gives `P3-Low` unless a critical word occurs |
| IssueAgent.PriorityAgrees | src/agents/IssueAgent.ts:105-119 | without `低優先度` the corrected chain answers what the chain as written does |
| IssueAgent.EstimateComplexity | src/agents/IssueAgent.ts:124-156 | the complexity is one of `small`, `medium`, `large` and `xlarge` |
| IssueAgent.MentionsAppend | src/agents/IssueAgent.ts:130-143 | a size word found in a text is found after anything is appended |
| IssueAgent.ComplexityGrows | src/agents/IssueAgent.ts:124-156 | appending to the body never lowers the complexity, since words, unchecked boxes and length only grow |
| IssueAgent.InferCategory | src/agents/IssueAgent.ts:161-181 | the category is one of the five |
| IssueAgent.CategoryExactly | src/agents/IssueAgent.ts:161-181 | every category except `backend` comes out exactly when its branch is the first to fire |
| IssueAgent.CategoryBackend | src/agents/IssueAgent.ts:161-181 | `backend` comes out exactly when the front-end branch does not fire and either the back-end branch fires or none after it does |
| IssueAgent.NewLabels | src/agents/IssueAgent.ts:64-81 | five labels: `type:`, `priority:` with the priority of the chain as written, `complexity:`, `category:` and `phase:planning`, in that order |
| IssueAgent.SuggestedLabels | src/agents/IssueAgent.ts:61-84 | a label is suggested exactly when the issue has it or it is one of the five (with the priority of the chain as written), and no label is suggested twice |
| IssueAgent.SuggestedKeepsOriginal | src/agents/IssueAgent.ts:62 | the issue's own labels keep their first-occurrence order at the front |
| IssueAgent.DedupFive | src/agents/IssueAgent.ts:62-83 | a set seeded with the labels and then given five `add` calls iterates as the deduplicated concatenation |
| IssueAgent.AnalyzeAndSuggestLabels | src/agents/IssueAgent.ts:61-84 | the method computes `SuggestedLabels`, whose priority label comes from the chain as written |
| IssueAgent.Without | src/agents/IssueAgent.ts:53 | `filter(l => !original.includes(l))`: exactly the suggested labels not in the original ones |
| IssueAgent.RunShadowsLowWord | src/agents/IssueAgent.ts:43-70 | as written, `run` on a text with `低優先度` reports `P0-Critical` or `P1-High`; none of the five added labels is `priority:P3-Low`, so the suggestion holds it only when the issue already carries it |
| IssueAgent.Run | src/agents/IssueAgent.ts:32-56 | `run` returns `IssueOutcome`, which reports the priority of the chain as written |
| IssueAgent.IssueSpec | src/agents/IssueAgent.ts:32-56 | the run never fails; the added labels are exactly the new ones the issue did not carry; the reported complexity and priority (the chain as written) are named by suggested labels |
| Text.LowerChar | src/agents/IssueAgent.ts:90 | `toLowerCase` on one character: A-Z move to a-z and nothing else changes |
| Text.Lower | src/agents/IssueAgent.ts:90 | `toLowerCase` keeps the length and lowers each character |
| Text.LowerAppend | src/agents/IssueAgent.ts:90 | lowering distributes over concatenation |
| Text.ContainsAt | src/agents/IssueAgent.ts:92 | `includes` holds exactly when the word occurs at some index |
| Text.ContainsWitness | src/agents/IssueAgent.ts:92 | an index where an included word occurs |
| Text.OccursContains | src/agents/IssueAgent.ts:92 | an occurrence at any index means the text includes the word |
| Text.NotContainsMissingChar | src/agents/IssueAgent.ts:92 | a word with a character the text lacks is not included |
| Text.ContainsAppend | src/agents/IssueAgent.ts:92 | what a text includes, it still includes with text added at either end |
| Text.ContainsTrans | src/agents/IssueAgent.ts:111-114 | inclusion is transitive |
| Text.Split | src/agents/CoordinatorAgent.ts:74 | `split` gives at least one piece and no piece holds the separator |
| Text.CountChar | src/agents/ReviewAgent.ts:131 | the occurrences of a character are at most the length |
| Text.CountCharAppend | src/agents/ReviewAgent.ts:131 | counting is additive over concatenation |
| Text.CountCharAbsent | src/agents/ReviewAgent.ts:131 | an absent character counts 0 |
| Text.SplitLength | src/agents/ReviewAgent.ts:131-132 | `split` gives one more piece than there are separators |
| Text.Join | src/core/ErrorFeedbackLoop.ts:72 | `join` of nothing is "" and of one part is that part |
| Text.JoinSnoc | src/core/ErrorFeedbackLoop.ts:72 | one more part adds the separator and the part |
| Text.JoinConsHead | src/core/ErrorFeedbackLoop.ts:72 | text put before the first part comes before the whole join |
| Text.JoinSplit | src/agents/CoordinatorAgent.ts:74 | joining the pieces of a split with its separator gives the text back |
| Text.SplitCons | src/agents/CoordinatorAgent.ts:74 | a separator-free head and a separator split off as the first piece |
| Text.SplitNoSep | src/agents/CoordinatorAgent.ts:74 | a text without the separator is one piece |
| Text.TrimStart | src/agents/CoordinatorAgent.ts:81 | drops exactly the leading whitespace |
| Text.TrimEnd | src/agents/CoordinatorAgent.ts:81 | drops exactly the trailing whitespace |
| Text.Trim | src/agents/CoordinatorAgent.ts:81 | `trim` gives a middle slice with only whitespace around it that neither starts nor ends with whitespace |
| Text.DigitChar | src/agents/DeploymentAgent.ts:102 | the character of a decimal digit |
| Text.NatToString | src/agents/DeploymentAgent.ts:102 | decimal digits only, one digit exactly below 10 |
| Text.NatToStringInjective | src/agents/DeploymentAgent.ts:102 | different numbers have different decimal forms |
| Text.IntToString | src/agents/DeploymentAgent.ts:102 | the decimal form of a number, with `-` before a negative one |
| Text.Utf16Length | src/agents/IssueAgent.ts:126 | `length` counts UTF-16 code units: between one and two per character |
| Text.Utf16LengthAppend | src/agents/IssueAgent.ts:126 | the length is additive over concatenation |
| Text.CountMatches | src/agents/IssueAgent.ts:127 | the non-overlapping matches of `match(/…/g)` are at most the length |
| Text.CountMatchesAppend | src/agents/IssueAgent.ts:127 | appending text never removes a match |
| Text.Dedup | src/agents/IssueAgent.ts:62 | `Array.from(new Set(xs))`: the same elements, each once |
| Text.AddToSet | src/agents/IssueAgent.ts:66 | `Set.add`: an element already there changes nothing, a new one goes last |
| Text.DedupAppend | src/agents/IssueAgent.ts:66 | adding to the set of a sequence is deduplicating the sequence extended |
| Text.DedupPrefix | src/agents/IssueAgent.ts:62-81 | later additions keep the earlier elements at the front in their order |
| Text.DedupOfDistinct | src/agents/IssueAgent.ts:62 | a sequence without repetitions is its own set order |
| Keywords.FirstFiringIs | src/agents/IssueAgent.ts:89-100 | a rule that fires with no earlier rule firing is the one the chain stops at |
| Keywords.ClassifyTail | src/agents/IssueAgent.ts:92 | a first rule that does not fire can be dropped |
| CoordinatorTasks.MakeTasks | src/agents/CoordinatorAgent.ts:82-92 | one task per title |
| CoordinatorTasks.TasksOf | src/agents/CoordinatorAgent.ts:77-95 | one task per line that gives a title |
| CoordinatorExample.MockTitles | src/cli/commands/agent.ts:45 | the mock issue's body gives the titles `タスク1`, `タスク2` and `タスク3` |
| Feedback.MergeStep | src/core/ErrorFeedbackLoop.ts:183-185 | one `set` of the loop is one more entry given to the map |
| Feedback.MergedKeys | src/core/ErrorFeedbackLoop.ts:179-188 | the merged map's keys are the distinct paths of the original then the fixed files |
| Feedback.MergedPick | src/core/ErrorFeedbackLoop.ts:179-188 | every merged file is the last file with its path among the original and the fixed files |
| OrderedMaps.Get | src/core/ErrorFeedbackLoop.ts:180 | `Map.get`: a value exactly for a present key, the one stored |
| OrderedMaps.FromEntries | src/core/ErrorFeedbackLoop.ts:180 | `new Map(entries)` is a valid insertion-ordered map |
| OrderedMaps.LastWith | src/core/ErrorFeedbackLoop.ts:180 | the value of the last entry with a key, none exactly when no entry has it |
| OrderedMaps.FromEntriesSnoc | src/core/ErrorFeedbackLoop.ts:180-184 | building from one entry more is one `set` more |
| OrderedMaps.LastWithAppend | src/core/ErrorFeedbackLoop.ts:180-185 | over two entry lists the second decides wherever it has the key |
| Cli.ParseNatString | src/cli/index.ts:147 | `parseInt` gives back every natural number from its decimal form |
| Cli.ParseNegString | src/cli/index.ts:147 | `parseInt` gives back every negative number from its decimal form |

## Left out

- Input and output: console output, `log`, `JSON.stringify` of results, ANSI banners, `printSummary` and the `sleep` between health probes. The model keeps only the values these report. The waits are counted in `Deployment.HealthReport`.
- Clocks: `Date.now()` is a parameter. It is the deployment id's number and the two timestamps `BaseAgent.Agent.Execute` records. `duration` and `totalDuration` are the differences of those readings, and no elapsed time is modelled.
- Collaborators as oracles:
  - the code-generation agent, both its `execute` for a task and the regeneration the error feedback loop asks of it (the loop around that regeneration is modelled, in `Orchestrator.RealRepair`);
  - the MCP browser-error list of each round;
  - the deployment health probe;
  - the GitHub label listing and the create/update calls.

  Each is a function of its inputs (and, in the orchestrator, of the round number). None of their internals is modelled.
- Stubs: the E2E and browser-console checks of the test agent answer no errors, and the model has them so. The pre-deployment checks, the deployment itself and the rollback of the deployment agent only log, and they are left out.
- The PR body: its Markdown template (title, first five body lines, quality report, file list and checklists) is represented only by the change summary in it.
- Lower-casing is ASCII-only. Characters outside A-Z pass through `toLowerCase` unchanged, which is exact for the Japanese keywords but not for other scripts.
- Text.Utf16Length counts a character above U+FFFF as two code units. Lone surrogates cannot occur in Dafny strings.
- JavaScript numbers are modelled as unbounded integers and exact reals:
  - `parseInt` of a numeral beyond 2^53 loses precision in the source, but not in `Cli.ParseIssueNumber`;
  - the coverage `(tests / sources) * 100` is exact in `TestAgent.Coverage`, where the source rounds to a double;
  - no `summary` string of a test result is modelled (see `TestAgent.RunTests` below).
- Labels: only the first page of up to 100 listed labels is read, as the code does. Pagination beyond it is not modelled because the code does not page.
- Review: the four secret patterns and the SQL pattern are matched by hand-written matchers of those regular expressions (case-insensitive, `\s*`, quote classes, `.` not crossing a line end). General regular expressions are not modelled.
- Review.SecretIssues: only the `password` pattern has a lemma that a concrete assignment is reported (`Review.PasswordFound`); the `api_key`, `secret` and `token` patterns share the matcher but have no such lemma.
- Orchestrator.ProcessIssue: the check that code generation and review results exist before the PR stage (`src/core/AgentOrchestrator.ts:183-185`) cannot fire, because a loop that ends without aborting has run at least one round that set both; the model records this in the loop's contract instead of a dead branch.
- Orchestrator.ProcessIssue: the source pushes the MCP errors into the test agent's own `errors` array in place. The model appends them to a copy of the result, so aliasing between that array and the test agent's result object is not modelled.
- BaseAgent.ResultOf: `...result` can override any default field. The model spreads only `data`, `error` and `metadata`, the only fields the agents return.
- CoordinatorDag.CalculateLevel: modelled only for task sets that admit a rank decreasing along present dependencies. On a cycle the source recurses until the stack overflows, and that is not modelled.
- TestAgent.RunTests: the `summary` string (`テスト: N件のエラー | カバレッジ: C%`) is not modelled, because it needs JavaScript's formatting of a double; `AgentTypes.TestResult` has no such field and no other part of the core reads it.
- AgentTypes.Issue and AgentTypes.Task: the issue fields `state`, `assignees`, `createdAt` and `updatedAt` and the optional task field `assignedAgent` are not modelled, because no code of this core reads them.
- TestAgent.Rounds: after a round that fails with a fix that succeeds, the source repeats the same input, so the model treats every round as equal and takes five rounds. Fixes that change the input between rounds are not modelled, because `autoFix` never changes it.
- The remaining commands of the CLI (`init`, `status`, `onboard`, `setup`, `install`, `config`, `doctor`, `auto`, `todos`) and the GitHub client are user interface, prompts, file writes and subprocesses, and are not part of this model.

## Findings

| source | as written | input that shows it | evidently intended | confidence | as-written member | corrected member |
|---|---|---|---|---|---|---|
| src/agents/CoordinatorAgent.ts:153-154 | `dfs` adds a dependency id with no node to `recStack` and returns before removing it | two tasks `task-1` and `task-2` that both depend on a missing `task-9`: the second visit finds `task-9` still on the stack and reports a cycle | a cycle is reported exactly when some task reaches itself through dependencies | not executed | CoordinatorCycle.DanglingFalseCycle | CoordinatorCycle.DetectsIffCycle |
| src/agents/IssueAgent.ts:111-114 | the `P1-High` test for `優先` comes before the `P3-Low` test for `低優先度`, which contains `優先` | an issue whose title is `低優先度` is estimated `P1-High` | `低優先度` gives `P3-Low` | not executed | IssueAgent.LowWordShadowed | IssueAgent.LowWordHonoured |

The corrected cycle search (`CoordinatorCycle.DetectCycle`) removes a missing id from the stack again. `CoordinatorCycle.AsWrittenAgrees` proves that it answers as the code does when no id is missing, and `CoordinatorAgent.AsWrittenHarmless` that this is always so for decomposed issues. The corrected priority chain (`IssueAgent.EstimatePriority`) tests `低優先度` right after the critical words. `IssueAgent.PriorityAgrees` proves that it answers as the code does on every text without that word. The corrected cycle search is the one the coordinator uses. The issue agent's labels and `run` keep the chain as written, so `IssueAgent.RunShadowsLowWord` shows the defect where the source exhibits it; `IssueAgent.EstimatePriority` and `IssueAgent.LowWordHonoured` are the corrected half.
