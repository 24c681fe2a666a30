/** CoordinatorAgent's `run`: decompose the issue, build the DAG, refuse a
    dependency cycle, and plan the execution. */
module CoordinatorAgent {
  import opened Wrappers
  import opened AgentTypes
  import opened BaseAgent
  import CoordinatorTasks
  import CoordinatorDag
  import CoordinatorCycle
  import CoordinatorPlan

  datatype CoordinatorData = CoordinatorData(tasks: seq<Task>, dagNodes: seq<DAGNode>, plan: ExecutionPlan)

  datatype CoordinatorMeta = CoordinatorMeta(totalTasks: nat, levels: nat, criticalPath: seq<string>, estimatedDuration: int)

  const CycleMessage: string := "循環依存が検出されました"

  /** The position of the first task with the given id. */
  function IndexOfId(tasks: seq<Task>, id: string): (r: nat)
    requires exists i :: 0 <= i < |tasks| && tasks[i].id == id
    ensures r < |tasks| && tasks[r].id == id
    ensures forall j :: 0 <= j < r ==> tasks[j].id != id
  {
    if tasks[0].id == id then 0
    else
      assert exists i :: 0 <= i < |tasks[1..]| && tasks[1..][i].id == id by {
        var i :| 0 <= i < |tasks| && tasks[i].id == id;
        assert tasks[1..][i - 1] == tasks[i];
      }
      1 + IndexOfId(tasks[1..], id)
  }

  /** Ranks each task id by its position, counting from 1: for decomposed
      tasks every dependency is ranked lower than its dependant. */
  ghost function IdRank(tasks: seq<Task>): map<string, nat>
  {
    map id | id in CoordinatorDag.TaskMap(tasks) :: IndexOfId(tasks, id) + 1
  }

  /** The shape of a decomposed task list: task k has id `task-(k+1)` and
      depends only on tasks 1 .. k. */
  ghost predicate Shaped(ts: seq<Task>)
  {
    forall k :: 0 <= k < |ts| ==>
      ts[k].id == CoordinatorTasks.TaskId(k + 1) &&
      forall d :: d in ts[k].dependencies ==> exists j :: 1 <= j <= k && d == CoordinatorTasks.TaskId(j)
  }

  lemma DecomposedShaped(issue: Issue)
    ensures Shaped(CoordinatorTasks.Decompose(issue))
  {
    CoordinatorTasks.DecomposeSpec(issue);
  }

  /** Task k of a shaped list is the first with its id. */
  lemma ShapedIndex(ts: seq<Task>, k: nat)
    requires Shaped(ts) && k < |ts|
    ensures CoordinatorTasks.TaskId(k + 1) in CoordinatorDag.TaskMap(ts)
    ensures IndexOfId(ts, CoordinatorTasks.TaskId(k + 1)) == k
  {
    assert ts[k].id == CoordinatorTasks.TaskId(k + 1);
    var r := IndexOfId(ts, CoordinatorTasks.TaskId(k + 1));
    assert ts[r].id == CoordinatorTasks.TaskId(r + 1);
    CoordinatorTasks.TaskIdInjective(r + 1, k + 1);
  }

  /** The dependencies of task i are ranked below it. */
  lemma DepRankBelow(ts: seq<Task>, i: nat, v: string)
    requires Shaped(ts) && i < |ts| && v in ts[i].dependencies
    ensures var rank := IdRank(ts);
      ts[i].id in rank && v in rank && v in CoordinatorDag.TaskMap(ts) && rank[v] < rank[ts[i].id]
  {
    var j :| 1 <= j <= i && v == CoordinatorTasks.TaskId(j);
    assert ts[i].id == CoordinatorTasks.TaskId(i + 1);
    ShapedIndex(ts, i);
    var k: nat := j - 1;
    assert v == CoordinatorTasks.TaskId(k + 1);
    ShapedIndex(ts, k);
    IdRankAt(ts, ts[i].id);
    IdRankAt(ts, v);
  }

  lemma IdRankAt(ts: seq<Task>, id: string)
    requires id in CoordinatorDag.TaskMap(ts)
    ensures id in IdRank(ts) && IdRank(ts)[id] == IndexOfId(ts, id) + 1
  {
  }

  /** A shaped task list satisfies what `calculateLevel` needs to terminate. */
  lemma ShapedRanked(ts: seq<Task>)
    requires Shaped(ts)
    ensures CoordinatorDag.Ranked(CoordinatorDag.TaskMap(ts), IdRank(ts))
  {
    var m := CoordinatorDag.TaskMap(ts);
    forall k, d | k in m && d in m[k].dependencies && d in m ensures IdRank(ts)[d] < IdRank(ts)[k] {
      var i :| 0 <= i < |ts| && ts[i] == m[k];
      DepRankBelow(ts, i, d);
    }
  }

  lemma DecomposedRanked(issue: Issue)
    ensures var ts := CoordinatorTasks.Decompose(issue); CoordinatorDag.Ranked(CoordinatorDag.TaskMap(ts), IdRank(ts))
  {
    DecomposedShaped(issue);
    ShapedRanked(CoordinatorTasks.Decompose(issue));
  }

  ghost function DagOf(issue: Issue): seq<DAGNode>
  {
    DecomposedRanked(issue);
    var ts := CoordinatorTasks.Decompose(issue);
    CoordinatorDag.Dag(ts, IdRank(ts))
  }

  /** Every dependency of a decomposed issue's DAG names one of its nodes,
      and the DAG has no cycle. */
  lemma DagOfSound(issue: Issue)
    ensures CoordinatorCycle.NoDangling(DagOf(issue))
    ensures !CoordinatorCycle.HasCycle(DagOf(issue))
  {
    var ts := CoordinatorTasks.Decompose(issue);
    DecomposedShaped(issue);
    DecomposedRanked(issue);
    var rank := IdRank(ts);
    var nodes := DagOf(issue);
    forall u, v | CoordinatorCycle.Edge(nodes, u, v) ensures u in rank && v in rank && rank[v] < rank[u] {
      var n := CoordinatorCycle.FindNode(nodes, u).value;
      CoordinatorDag.DagNodeOf(ts, rank, n);
      var i :| 0 <= i < |ts| && ts[i] == n.task;
      DepRankBelow(ts, i, v);
    }
    CoordinatorCycle.RankedNoCycle(nodes, rank);
    forall n, d | n in nodes && d in n.dependencies ensures CoordinatorCycle.FindNode(nodes, d).Some? {
      CoordinatorDag.DagNodeOf(ts, rank, n);
      var i :| 0 <= i < |ts| && ts[i] == n.task;
      DepRankBelow(ts, i, d);
      var n' := CoordinatorDag.DepNode(ts, rank, d);
      CoordinatorCycle.FindPresent(nodes, n');
    }
  }

  /** The DAG of an issue is sorted by level, and its levels start at 0 with no gaps. */
  lemma DagOfLayered(issue: Issue)
    ensures CoordinatorDag.SortedByLevel(DagOf(issue))
    ensures CoordinatorPlan.Contiguous(DagOf(issue))
  {
    var ts := CoordinatorTasks.Decompose(issue);
    DecomposedRanked(issue);
    var rank := IdRank(ts);
    CoordinatorDag.DagSpec(ts, rank);
    forall n | n in DagOf(issue)
      ensures n.level >= 0 && (n.level > 0 ==> exists n' :: n' in DagOf(issue) && n'.level == n.level - 1)
    {
      CoordinatorDag.DagLevels(ts, rank, n);
    }
  }

  ghost function RunOutcome(issue: Issue): Outcome<CoordinatorData, CoordinatorMeta>
  {
    var tasks := CoordinatorTasks.Decompose(issue);
    var nodes := DagOf(issue);
    if CoordinatorCycle.HasCycle(nodes) then Threw(CycleMessage)
    else
      var plan := CoordinatorPlan.Plan(nodes);
      Returned(Partial(Some(CoordinatorData(tasks, nodes, plan)), None,
                       Some(CoordinatorMeta(|tasks|, plan.levels, plan.criticalPath, plan.estimatedDuration))))
  }

  /** `run(issue)`. */
  method Run(issue: Issue) returns (outcome: Outcome<CoordinatorData, CoordinatorMeta>)
    ensures outcome == RunOutcome(issue)
    ensures outcome.Returned? && outcome.part.data.Some? && outcome.part.metadata.Some? && outcome.part.error.None?
  {
    var tasks := CoordinatorTasks.DecomposeTasks(issue);
    DecomposedRanked(issue);
    var dagNodes := CoordinatorDag.BuildDAG(tasks, IdRank(tasks));
    var hasCycle := CoordinatorCycle.DetectCycle(dagNodes);
    DagOfSound(issue);
    if hasCycle {
      return Threw(CycleMessage);
    }
    var plan := CoordinatorPlan.CreateExecutionPlan(dagNodes);
    var data := CoordinatorData(tasks, dagNodes, plan);
    var meta := CoordinatorMeta(|tasks|, plan.levels, plan.criticalPath, plan.estimatedDuration);
    return Returned(Partial(Some(data), None, Some(meta)));
  }

  /** What the coordinator hands on: the decomposed tasks, one DAG node
      per task, group k holding the level-k nodes, one group per level and
      a path with one id per level. */
  lemma RunSpec(issue: Issue)
    ensures RunOutcome(issue).Returned? && RunOutcome(issue).part.data.Some?
    ensures var d := RunOutcome(issue).part.data.value; var p := d.plan;
      d.tasks == CoordinatorTasks.Decompose(issue) && |d.dagNodes| == |d.tasks| &&
      p.totalTasks == |d.tasks| && p.levels == |p.parallelGroups| && |p.criticalPath| == p.levels &&
      (forall k :: 0 <= k < p.levels ==> p.parallelGroups[k] == CoordinatorDag.AtLevel(d.dagNodes, k)) &&
      (forall n :: n in d.dagNodes ==> n.task in d.tasks && 0 <= n.level < p.levels && n in p.parallelGroups[n.level])
  {
    var ts := CoordinatorTasks.Decompose(issue);
    DecomposedRanked(issue);
    DagOfSound(issue);
    DagOfLayered(issue);
    CoordinatorDag.DagSpec(ts, IdRank(ts));
    CoordinatorPlan.PlanOfLayered(DagOf(issue));
  }

  /** On a decomposed issue the cycle check as written gives the same answer. */
  lemma AsWrittenHarmless(issue: Issue)
    ensures !CoordinatorCycle.Detects(DagOf(issue), false)
  {
    DagOfSound(issue);
    CoordinatorCycle.AsWrittenAgrees(DagOf(issue));
    CoordinatorCycle.DetectsIffCycle(DagOf(issue));
  }
}
