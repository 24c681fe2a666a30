/** CoordinatorAgent, second half of the planning step: each task's
    dependency level and the level-sorted list of DAG nodes. */
module CoordinatorDag {
  import opened Wrappers
  import opened AgentTypes

  /** `new Map(tasks.map(t => [t.id, t]))`: a later task with the same id wins. */
  function TaskMap(tasks: seq<Task>): (m: map<string, Task>)
    ensures forall k :: k in m <==> exists i :: 0 <= i < |tasks| && tasks[i].id == k
    ensures forall k :: k in m ==> m[k].id == k && m[k] in tasks
  {
    if tasks == [] then map[]
    else
      var init := TaskMap(tasks[..|tasks| - 1]);
      var last := tasks[|tasks| - 1];
      assert forall i :: 0 <= i < |tasks| - 1 ==> tasks[..|tasks| - 1][i] == tasks[i];
      init[last.id := last]
  }

  /** `rank` witnesses that the graph of present dependencies is acyclic:
      every dependency that names a task has a smaller rank. */
  ghost predicate Ranked(m: map<string, Task>, rank: map<string, nat>)
  {
    (forall k :: k in m ==> k in rank) &&
    (forall k, d :: k in m && d in m[k].dependencies && d in m ==> rank[d] < rank[k])
  }

  /** One more than the largest rank among the dependencies that name a task. */
  ghost function Bound(deps: seq<string>, m: map<string, Task>, rank: map<string, nat>): (r: nat)
    requires forall k :: k in m ==> k in rank
    ensures forall d :: d in deps && d in m ==> rank[d] < r
    ensures r == 0 || exists d :: d in deps && d in m && r == rank[d] + 1
  {
    if deps == [] then 0
    else
      var b := Bound(deps[..|deps| - 1], m, rank);
      var d := deps[|deps| - 1];
      assert forall e :: e in deps ==> e in deps[..|deps| - 1] || e == d;
      if d in m && b < rank[d] + 1 then rank[d] + 1 else b
  }

  function Max(a: int, b: int): int
  {
    if a < b then b else a
  }

  /** `calculateLevel(task, taskMap)`: 0 without dependencies, else the
      largest level + 1 over the dependencies present in the map. */
  ghost function Level(task: Task, m: map<string, Task>, rank: map<string, nat>): nat
    requires Ranked(m, rank)
    decreases Bound(task.dependencies, m, rank), 1, 0
  {
    DepsLevel(task.dependencies, m, rank)
  }

  ghost function DepsLevel(deps: seq<string>, m: map<string, Task>, rank: map<string, nat>): nat
    requires Ranked(m, rank)
    decreases Bound(deps, m, rank), 0, |deps|
  {
    if deps == [] then 0
    else
      var init := deps[..|deps| - 1];
      var d := deps[|deps| - 1];
      assert Bound(init, m, rank) <= Bound(deps, m, rank);
      var l := DepsLevel(init, m, rank);
      if d in m then
        assert Bound(m[d].dependencies, m, rank) <= rank[d];
        Max(l, Level(m[d], m, rank) + 1)
      else l
  }

  /** The level of a dependency list is above the level of every present
      dependency, and is attained by one of them unless it is 0. */
  lemma {:induction false} DepsLevelSpec(deps: seq<string>, m: map<string, Task>, rank: map<string, nat>)
    requires Ranked(m, rank)
    ensures forall d :: d in deps && d in m ==> Level(m[d], m, rank) < DepsLevel(deps, m, rank)
    ensures DepsLevel(deps, m, rank) == 0 <==> forall d :: d in deps ==> d !in m
    ensures DepsLevel(deps, m, rank) > 0 ==>
      exists d :: d in deps && d in m && DepsLevel(deps, m, rank) == Level(m[d], m, rank) + 1
  {
    if deps != [] {
      var init := deps[..|deps| - 1];
      DepsLevelSpec(init, m, rank);
      assert forall e :: e in deps <==> e in init || e == deps[|deps| - 1];
    }
  }

  /** Level 0 means no present dependency; otherwise the level is one more
      than the highest level of a present dependency. */
  lemma LevelSpec(task: Task, m: map<string, Task>, rank: map<string, nat>)
    requires Ranked(m, rank)
    ensures forall d :: d in task.dependencies && d in m ==> Level(m[d], m, rank) < Level(task, m, rank)
    ensures Level(task, m, rank) == 0 <==> forall d :: d in task.dependencies ==> d !in m
    ensures Level(task, m, rank) > 0 ==>
      exists d :: d in task.dependencies && d in m && Level(task, m, rank) == Level(m[d], m, rank) + 1
  {
    DepsLevelSpec(task.dependencies, m, rank);
  }

  /** `calculateLevel`, recursive with a loop over the dependencies. */
  method CalculateLevel(task: Task, m: map<string, Task>, ghost rank: map<string, nat>) returns (level: nat)
    requires Ranked(m, rank)
    ensures level == Level(task, m, rank)
    decreases Bound(task.dependencies, m, rank)
  {
    var deps := task.dependencies;
    if |deps| == 0 {
      return 0;
    }
    var maxLevel := 0;
    for i := 0 to |deps|
      invariant maxLevel == DepsLevel(deps[..i], m, rank)
    {
      assert deps[..i + 1][..i] == deps[..i];
      var depId := deps[i];
      if depId in m {
        var depTask := m[depId];
        assert Bound(depTask.dependencies, m, rank) <= rank[depId];
        var depLevel := CalculateLevel(depTask, m, rank);
        maxLevel := Max(maxLevel, depLevel + 1);
      }
    }
    assert deps[..|deps|] == deps;
    return maxLevel;
  }

  function NodeOf(task: Task, level: int): DAGNode
  {
    DAGNode(task.id, level, task.dependencies, task)
  }

  /** The nodes in task order, before sorting. */
  ghost function LevelledNodes(tasks: seq<Task>, m: map<string, Task>, rank: map<string, nat>): (r: seq<DAGNode>)
    requires Ranked(m, rank)
    ensures |r| == |tasks|
    ensures forall i :: 0 <= i < |tasks| ==> r[i] == NodeOf(tasks[i], Level(tasks[i], m, rank))
  {
    seq(|tasks|, i requires 0 <= i < |tasks| => NodeOf(tasks[i], Level(tasks[i], m, rank)))
  }

  /** The nodes of s at level l, in order. */
  function AtLevel(s: seq<DAGNode>, l: int): (r: seq<DAGNode>)
    ensures |r| <= |s|
    ensures forall n :: n in r <==> n in s && n.level == l
  {
    if s == [] then []
    else
      var init := AtLevel(s[..|s| - 1], l);
      assert forall n :: n in s <==> n in s[..|s| - 1] || n == s[|s| - 1];
      if s[|s| - 1].level == l then init + [s[|s| - 1]] else init
  }

  lemma {:induction false} AtLevelAppend(s: seq<DAGNode>, t: seq<DAGNode>, l: int)
    ensures AtLevel(s + t, l) == AtLevel(s, l) + AtLevel(t, l)
    decreases |t|
  {
    if t == [] {
      assert s + t == s;
    } else {
      assert (s + t)[..|s + t| - 1] == s + t[..|t| - 1];
      AtLevelAppend(s, t[..|t| - 1], l);
    }
  }

  ghost predicate SortedByLevel(s: seq<DAGNode>)
  {
    forall i, j :: 0 <= i < j < |s| ==> s[i].level <= s[j].level
  }

  /** Places x after every node of a sorted list whose level is not above its own. */
  function Insert(x: DAGNode, ys: seq<DAGNode>): seq<DAGNode>
  {
    if ys == [] then [x]
    else if x.level < ys[0].level then [x] + ys
    else [ys[0]] + Insert(x, ys[1..])
  }

  /** Insertion adds x and keeps every other node. */
  lemma {:induction false} InsertPerm(x: DAGNode, ys: seq<DAGNode>)
    ensures multiset(Insert(x, ys)) == multiset(ys) + multiset{x}
  {
    if ys != [] && x.level >= ys[0].level {
      InsertPerm(x, ys[1..]);
      assert ys == [ys[0]] + ys[1..];
    }
  }

  lemma {:induction false} InsertSorted(x: DAGNode, ys: seq<DAGNode>)
    requires SortedByLevel(ys)
    ensures SortedByLevel(Insert(x, ys))
  {
    if ys != [] && x.level >= ys[0].level {
      var rest := Insert(x, ys[1..]);
      InsertSorted(x, ys[1..]);
      InsertPerm(x, ys[1..]);
      forall k | 0 <= k < |rest| ensures ys[0].level <= rest[k].level {
        assert rest[k] in multiset(ys[1..]) + multiset{x};
      }
    }
  }

  /** `nodes.sort((a, b) => a.level - b.level)`, a stable sort by level. */
  function SortByLevel(s: seq<DAGNode>): (r: seq<DAGNode>)
    ensures SortedByLevel(r)
    ensures multiset(r) == multiset(s)
  {
    if s == [] then []
    else
      assert s == s[..|s| - 1] + [s[|s| - 1]];
      var sorted := SortByLevel(s[..|s| - 1]);
      InsertSorted(s[|s| - 1], sorted);
      InsertPerm(s[|s| - 1], sorted);
      Insert(s[|s| - 1], sorted)
  }

  /** No node of a sorted list below level l sits at level l. */
  lemma AtLevelBelow(ys: seq<DAGNode>, l: int)
    requires forall k :: 0 <= k < |ys| ==> ys[k].level > l
    ensures AtLevel(ys, l) == []
  {
  }

  lemma AtLevelSingle(x: DAGNode, l: int)
    ensures AtLevel([x], l) == if x.level == l then [x] else []
  {
    assert [x][..0] == [];
  }

  /** Insertion into a sorted list puts x at the end of its own level. */
  lemma {:induction false} InsertAtLevel(x: DAGNode, ys: seq<DAGNode>, l: int)
    requires SortedByLevel(ys)
    decreases |ys|, 1
    ensures AtLevel(Insert(x, ys), l) == AtLevel(ys, l) + (if x.level == l then [x] else [])
  {
    if ys == [] {
      AtLevelSingle(x, l);
      assert Insert(x, ys) == [x];
    } else if x.level < ys[0].level {
      InsertAtLevelFront(x, ys, l);
    } else {
      InsertAtLevelStep(x, ys, l);
    }
  }

  lemma InsertAtLevelFront(x: DAGNode, ys: seq<DAGNode>, l: int)
    requires SortedByLevel(ys) && ys != [] && x.level < ys[0].level
    ensures AtLevel(Insert(x, ys), l) == AtLevel(ys, l) + (if x.level == l then [x] else [])
  {
    AtLevelSingle(x, l);
    assert Insert(x, ys) == [x] + ys;
    AtLevelAppend([x], ys, l);
    if x.level == l {
      AtLevelBelow(ys, l);
    }
  }

  lemma {:induction false} InsertAtLevelStep(x: DAGNode, ys: seq<DAGNode>, l: int)
    requires SortedByLevel(ys) && ys != [] && x.level >= ys[0].level
    ensures AtLevel(Insert(x, ys), l) == AtLevel(ys, l) + (if x.level == l then [x] else [])
    decreases |ys|, 0
  {
    var tl := ys[1..];
    var rest := Insert(x, tl);
    var tail := if x.level == l then [x] else [];
    var head := AtLevel([ys[0]], l);
    SortedTail(ys);
    assert Insert(x, ys) == [ys[0]] + rest;
    AtLevelAppend([ys[0]], rest, l);
    InsertAtLevel(x, tl, l);
    assert [ys[0]] + tl == ys;
    AtLevelAppend([ys[0]], tl, l);
    ConcatAssoc(head, AtLevel(tl, l), tail);
  }

  lemma SortedTail(ys: seq<DAGNode>)
    requires SortedByLevel(ys) && ys != []
    ensures SortedByLevel(ys[1..])
  {
  }

  lemma ConcatAssoc<T>(a: seq<T>, b: seq<T>, c: seq<T>)
    ensures a + (b + c) == (a + b) + c
  {
  }

  /** The sort keeps the input order within each level. */
  lemma {:induction false} SortStable(s: seq<DAGNode>, l: int)
    ensures AtLevel(SortByLevel(s), l) == AtLevel(s, l)
  {
    if s != [] {
      SortStable(s[..|s| - 1], l);
      InsertAtLevel(s[|s| - 1], SortByLevel(s[..|s| - 1]), l);
    }
  }

  /** `buildDAG`: one node per task, carrying its level, then sorted. */
  ghost function Dag(tasks: seq<Task>, rank: map<string, nat>): seq<DAGNode>
    requires Ranked(TaskMap(tasks), rank)
  {
    SortByLevel(LevelledNodes(tasks, TaskMap(tasks), rank))
  }

  method BuildDAG(tasks: seq<Task>, ghost rank: map<string, nat>) returns (nodes: seq<DAGNode>)
    requires Ranked(TaskMap(tasks), rank)
    ensures nodes == Dag(tasks, rank)
  {
    var taskMap := TaskMap(tasks);
    var unsorted: seq<DAGNode> := [];
    for i := 0 to |tasks|
      invariant |unsorted| == i
      invariant forall k :: 0 <= k < i ==> unsorted[k] == NodeOf(tasks[k], Level(tasks[k], taskMap, rank))
    {
      var level := CalculateLevel(tasks[i], taskMap, rank);
      unsorted := unsorted + [DAGNode(tasks[i].id, level, tasks[i].dependencies, tasks[i])];
    }
    assert unsorted == LevelledNodes(tasks, taskMap, rank);
    nodes := SortByLevel(unsorted);
  }

  /** The DAG has exactly one node per task, ordered by level, with input
      order kept inside a level; each node carries its task's id,
      dependencies and level. */
  lemma DagSpec(tasks: seq<Task>, rank: map<string, nat>)
    requires Ranked(TaskMap(tasks), rank)
    ensures var nodes := Dag(tasks, rank); var m := TaskMap(tasks);
      |nodes| == |tasks| &&
      multiset(nodes) == multiset(LevelledNodes(tasks, m, rank)) &&
      SortedByLevel(nodes) &&
      (forall l :: AtLevel(nodes, l) == AtLevel(LevelledNodes(tasks, m, rank), l)) &&
      (forall n :: n in nodes ==> n.task in tasks && n == NodeOf(n.task, Level(n.task, m, rank)))
  {
    var m := TaskMap(tasks);
    var u := LevelledNodes(tasks, m, rank);
    var nodes := Dag(tasks, rank);
    assert |multiset(nodes)| == |multiset(u)|;
    forall l ensures AtLevel(nodes, l) == AtLevel(u, l) {
      SortStable(u, l);
    }
    forall n | n in nodes ensures n.task in tasks && n == NodeOf(n.task, Level(n.task, m, rank)) {
      DagNodeOf(tasks, rank, n);
    }
  }

  /** Every node of the DAG is the node of one of the tasks. */
  lemma DagNodeOf(tasks: seq<Task>, rank: map<string, nat>, n: DAGNode)
    requires Ranked(TaskMap(tasks), rank)
    requires n in Dag(tasks, rank)
    ensures n.task in tasks && n == NodeOf(n.task, Level(n.task, TaskMap(tasks), rank))
  {
    var u := LevelledNodes(tasks, TaskMap(tasks), rank);
    assert n in multiset(u);
    var i :| 0 <= i < |u| && u[i] == n;
  }

  /** Every task has its node in the DAG. */
  lemma DagHasTask(tasks: seq<Task>, rank: map<string, nat>, i: nat)
    requires Ranked(TaskMap(tasks), rank)
    requires i < |tasks|
    ensures NodeOf(tasks[i], Level(tasks[i], TaskMap(tasks), rank)) in Dag(tasks, rank)
  {
    var u := LevelledNodes(tasks, TaskMap(tasks), rank);
    assert u[i] in multiset(u);
  }

  /** A node above level 0 has a dependency whose node is exactly one level
      lower, so the levels in use run from 0 without gaps; and every present
      dependency has a node at a strictly lower level. */
  lemma DagLevels(tasks: seq<Task>, rank: map<string, nat>, n: DAGNode)
    requires Ranked(TaskMap(tasks), rank)
    requires n in Dag(tasks, rank)
    ensures n.level >= 0
    ensures n.level > 0 ==> exists n' :: n' in Dag(tasks, rank) && n'.taskId in n.dependencies && n'.level == n.level - 1
    ensures forall d :: d in n.dependencies && d in TaskMap(tasks) ==>
      exists n' :: n' in Dag(tasks, rank) && n'.taskId == d && n'.level < n.level
  {
    DagNodeOf(tasks, rank, n);
    if n.level > 0 {
      var n' := DagLevelAttained(tasks, rank, n);
    }
    forall d | d in n.dependencies && d in TaskMap(tasks)
      ensures exists n' :: n' in Dag(tasks, rank) && n'.taskId == d && n'.level < n.level
    {
      var n' := DagDepBelow(tasks, rank, n, d);
    }
  }

  /** A node above level 0 has a dependency node one level lower. */
  lemma DagLevelAttained(tasks: seq<Task>, rank: map<string, nat>, n: DAGNode) returns (n': DAGNode)
    requires Ranked(TaskMap(tasks), rank)
    requires n in Dag(tasks, rank) && n.level > 0
    ensures n' in Dag(tasks, rank) && n'.taskId in n.dependencies && n'.level == n.level - 1
  {
    var m := TaskMap(tasks);
    DagNodeOf(tasks, rank, n);
    LevelSpec(n.task, m, rank);
    var d :| d in n.task.dependencies && d in m && Level(n.task, m, rank) == Level(m[d], m, rank) + 1;
    n' := DepNode(tasks, rank, d);
  }

  /** Each present dependency of a node has a node at a lower level. */
  lemma DagDepBelow(tasks: seq<Task>, rank: map<string, nat>, n: DAGNode, d: string) returns (n': DAGNode)
    requires Ranked(TaskMap(tasks), rank)
    requires n in Dag(tasks, rank) && d in n.dependencies && d in TaskMap(tasks)
    ensures n' in Dag(tasks, rank) && n'.taskId == d && n'.level < n.level
  {
    var m := TaskMap(tasks);
    DagNodeOf(tasks, rank, n);
    LevelSpec(n.task, m, rank);
    n' := DepNode(tasks, rank, d);
  }

  /** The node of a present task id. */
  lemma DepNode(tasks: seq<Task>, rank: map<string, nat>, d: string) returns (n': DAGNode)
    requires Ranked(TaskMap(tasks), rank)
    requires d in TaskMap(tasks)
    ensures n' in Dag(tasks, rank) && n'.taskId == d && n'.level == Level(TaskMap(tasks)[d], TaskMap(tasks), rank)
  {
    var m := TaskMap(tasks);
    var i :| 0 <= i < |tasks| && tasks[i] == m[d];
    DagHasTask(tasks, rank, i);
    n' := NodeOf(tasks[i], Level(tasks[i], m, rank));
  }
}
