/** CoordinatorAgent, last step of planning: tasks grouped by level into
    groups that may run in parallel, the "critical path" and its duration. */
module CoordinatorPlan {
  import opened Wrappers
  import opened AgentTypes
  import Text
  import opened OrderedMaps
  import CoordinatorCycle
  import CoordinatorDag

  /** The level of each node, in order. */
  function LevelsOf(nodes: seq<DAGNode>): (r: seq<int>)
    ensures |r| == |nodes|
    ensures forall i :: 0 <= i < |nodes| ==> r[i] == nodes[i].level
  {
    seq(|nodes|, i requires 0 <= i < |nodes| => nodes[i].level)
  }

  /** The `levelMap` after the grouping loop has seen all of `nodes`. */
  function Grouped(nodes: seq<DAGNode>): (m: OMap<int, seq<DAGNode>>)
    ensures Valid(m)
  {
    if nodes == [] then Empty()
    else
      var g := Grouped(nodes[..|nodes| - 1]);
      var x := nodes[|nodes| - 1];
      Put(g, x.level, Get(g, x.level).GetOr([]) + [x])
  }

  /** The level map has one key per level in use, in order of first
      occurrence, and holds under each level the nodes of that level in
      input order. */
  lemma {:induction false} GroupedSpec(nodes: seq<DAGNode>)
    ensures Grouped(nodes).keys == Text.Dedup(LevelsOf(nodes))
    ensures forall l :: l in Grouped(nodes).values ==> Grouped(nodes).values[l] == CoordinatorDag.AtLevel(nodes, l)
  {
    if nodes != [] {
      var init := nodes[..|nodes| - 1];
      var x := nodes[|nodes| - 1];
      GroupedSpec(init);
      assert LevelsOf(nodes) == LevelsOf(init) + [x.level];
      Text.DedupAppend(LevelsOf(init), x.level);
      var g := Grouped(init);
      if x.level !in g.values {
        assert x.level !in Text.Dedup(LevelsOf(init));
        forall n | n in init ensures n.level != x.level {
          var i :| 0 <= i < |init| && init[i] == n;
          assert LevelsOf(init)[i] == n.level;
        }
        AtLevelAbsent(init, x.level);
      }
    }
  }

  lemma {:induction false} AtLevelAbsent(s: seq<DAGNode>, l: int)
    requires forall n :: n in s ==> n.level != l
    ensures CoordinatorDag.AtLevel(s, l) == []
  {
    if s != [] {
      AtLevelAbsent(s[..|s| - 1], l);
    }
  }

  /** `Array.from(levelMap.values())`. */
  function Groups(nodes: seq<DAGNode>): (r: seq<seq<DAGNode>>)
  {
    Values(Grouped(nodes))
  }

  /** Group k holds the nodes of the k-th distinct level, in input order. */
  lemma GroupsSpec(nodes: seq<DAGNode>)
    ensures |Groups(nodes)| == |Text.Dedup(LevelsOf(nodes))|
    ensures forall k :: 0 <= k < |Groups(nodes)| ==>
      Groups(nodes)[k] == CoordinatorDag.AtLevel(nodes, Text.Dedup(LevelsOf(nodes))[k])
  {
    GroupedSpec(nodes);
  }

  /** Levels in use that start at 0 and have no gaps. */
  ghost predicate Contiguous(nodes: seq<DAGNode>)
  {
    forall n :: n in nodes ==> n.level >= 0 && (n.level > 0 ==> exists n' :: n' in nodes && n'.level == n.level - 1)
  }

  lemma {:induction false} DedupSortedIncreasing(xs: seq<int>)
    requires forall i, j :: 0 <= i < j < |xs| ==> xs[i] <= xs[j]
    ensures Increasing(Text.Dedup(xs))
  {
    if xs != [] {
      var init := xs[..|xs| - 1];
      DedupSortedIncreasing(init);
      var d := Text.Dedup(init);
      forall i | 0 <= i < |d| ensures d[i] <= xs[|xs| - 1] {
        assert d[i] in init;
      }
    }
  }

  /** A strictly increasing list of the levels 0.., with no gaps, is 0, 1, 2, ... */
  ghost predicate Increasing(r: seq<int>)
  {
    forall i, j :: 0 <= i < j < |r| ==> r[i] < r[j]
  }

  /** Every value is at least 0 and, above 0, has its predecessor present. */
  ghost predicate GapFree(r: seq<int>)
  {
    forall x :: x in r ==> x >= 0 && (x > 0 ==> x - 1 in r)
  }

  lemma {:induction false} IncreasingGapFree(r: seq<int>)
    requires Increasing(r) && GapFree(r)
    ensures forall i :: 0 <= i < |r| ==> r[i] == i
  {
    forall i | 0 <= i < |r| ensures r[i] == i {
      IncreasingGapFreeAt(r, i);
    }
  }

  lemma {:induction false} IncreasingGapFreeAt(r: seq<int>, i: nat)
    requires Increasing(r) && GapFree(r)
    requires i < |r|
    ensures r[i] == i
  {
    assert r[i] in r;
    if i > 0 {
      IncreasingGapFreeAt(r, i - 1);
    }
    if r[i] > 0 {
      assert r[i] - 1 in r;
      var j :| 0 <= j < |r| && r[j] == r[i] - 1;
      assert j < i;
      assert r[j] <= r[i - 1];
    }
  }

  /** For level-sorted nodes with levels 0.. in use and no gaps, the distinct
      levels are exactly 0, 1, ..., in this order. */
  lemma LevelsAreRange(nodes: seq<DAGNode>)
    requires CoordinatorDag.SortedByLevel(nodes) && Contiguous(nodes)
    ensures forall k :: 0 <= k < |Text.Dedup(LevelsOf(nodes))| ==> Text.Dedup(LevelsOf(nodes))[k] == k
  {
    var xs := LevelsOf(nodes);
    assert forall i, j :: 0 <= i < j < |xs| ==> xs[i] <= xs[j];
    DedupSortedIncreasing(xs);
    DistinctLevelsGapFree(nodes);
    IncreasingGapFree(Text.Dedup(xs));
  }

  lemma DistinctLevelsGapFree(nodes: seq<DAGNode>)
    requires Contiguous(nodes)
    ensures GapFree(Text.Dedup(LevelsOf(nodes)))
  {
    var xs := LevelsOf(nodes);
    forall x | x in xs ensures x >= 0 && (x > 0 ==> x - 1 in xs) {
      var i :| 0 <= i < |xs| && xs[i] == x;
      assert nodes[i] in nodes;
      if x > 0 {
        var n' :| n' in nodes && n'.level == x - 1;
        var j :| 0 <= j < |nodes| && nodes[j] == n';
        assert xs[j] == x - 1;
      }
    }
  }

  /** Every node's level is one of the distinct levels. */
  lemma LevelInDistinct(nodes: seq<DAGNode>, n: DAGNode)
    requires n in nodes
    ensures n.level in Text.Dedup(LevelsOf(nodes))
  {
    var i :| 0 <= i < |nodes| && nodes[i] == n;
    assert LevelsOf(nodes)[i] == n.level;
  }

  /** `Math.max(...nodes.map(n => n.level))`; the empty list gives
      -Infinity, written here as -1: both keep the path loop from running. */
  function MaxLevel(nodes: seq<DAGNode>): (r: int)
    ensures nodes == [] ==> r == -1
    ensures nodes != [] ==> (exists n :: n in nodes && n.level == r) && forall n :: n in nodes ==> n.level <= r
  {
    if nodes == [] then -1
    else if |nodes| == 1 then nodes[0].level
    else
      var m := MaxLevel(nodes[1..]);
      assert forall n :: n in nodes <==> n == nodes[0] || n in nodes[1..];
      if nodes[0].level < m then m else nodes[0].level
  }

  /** `nodes.find(n => n.level === l)`. */
  function FirstAtLevel(nodes: seq<DAGNode>, l: int): (r: Option<DAGNode>)
    ensures r.None? <==> forall n :: n in nodes ==> n.level != l
    ensures r.Some? ==> exists i :: 0 <= i < |nodes| && nodes[i] == r.value && r.value.level == l &&
                                    forall j :: 0 <= j < i ==> nodes[j].level != l
  {
    if nodes == [] then None
    else if nodes[0].level == l then Some(nodes[0])
    else
      var r := FirstAtLevel(nodes[1..], l);
      assert forall n :: n in nodes <==> n == nodes[0] || n in nodes[1..];
      if r.Some? then
        var i :| 0 <= i < |nodes[1..]| && nodes[1..][i] == r.value && r.value.level == l &&
                 forall j :: 0 <= j < i ==> nodes[1..][j].level != l;
        assert nodes[i + 1] == r.value;
        r
      else r
  }

  /** The id of the first node at each level from lo to hi, in order,
      skipping levels nobody is at. */
  function PathBetween(nodes: seq<DAGNode>, lo: int, hi: int): (r: seq<string>)
    decreases hi - lo + 1
  {
    if lo > hi then []
    else
      (match FirstAtLevel(nodes, lo) case Some(n) => [n.taskId] case None => []) +
      PathBetween(nodes, lo + 1, hi)
  }

  /** When every level from lo to hi has a node, the path has one id per
      level: the id of the first node at that level. */
  lemma {:induction false} PathBetweenFull(nodes: seq<DAGNode>, lo: int, hi: int)
    requires forall l :: lo <= l <= hi ==> FirstAtLevel(nodes, l).Some?
    ensures |PathBetween(nodes, lo, hi)| == if lo > hi then 0 else hi - lo + 1
    ensures forall k :: 0 <= k < |PathBetween(nodes, lo, hi)| ==>
      PathBetween(nodes, lo, hi)[k] == FirstAtLevel(nodes, lo + k).value.taskId
    decreases hi - lo + 1
  {
    if lo <= hi {
      PathBetweenFull(nodes, lo + 1, hi);
      var head := [FirstAtLevel(nodes, lo).value.taskId];
      var rest := PathBetween(nodes, lo + 1, hi);
      assert PathBetween(nodes, lo, hi) == head + rest;
      forall k | 0 <= k < |head + rest| ensures (head + rest)[k] == FirstAtLevel(nodes, lo + k).value.taskId {
        if k > 0 {
          assert (head + rest)[k] == rest[k - 1];
          assert lo + 1 + (k - 1) == lo + k;
        }
      }
    }
  }

  /** Every id on the path is the id of a node at a level between lo and hi. */
  lemma {:induction false} PathBetweenNodes(nodes: seq<DAGNode>, lo: int, hi: int)
    ensures forall id :: id in PathBetween(nodes, lo, hi) ==>
      exists n :: n in nodes && n.taskId == id && lo <= n.level <= hi
    decreases hi - lo + 1
  {
    if lo <= hi {
      PathBetweenNodes(nodes, lo + 1, hi);
    }
  }

  ghost function CriticalPath(nodes: seq<DAGNode>): seq<string>
  {
    PathBetween(nodes, 0, MaxLevel(nodes))
  }

  /** `findCriticalPath`: walks the levels down from the highest one and
      puts the first node found at each level in front. */
  method FindCriticalPath(nodes: seq<DAGNode>) returns (path: seq<string>)
    ensures path == CriticalPath(nodes)
    ensures forall id :: id in path ==> exists n :: n in nodes && n.taskId == id && n.level >= 0
  {
    var maxLevel := MaxLevel(nodes);
    path := [];
    var currentLevel := maxLevel;
    while currentLevel >= 0
      invariant currentLevel <= maxLevel
      invariant currentLevel >= -1 || maxLevel < 0
      invariant path == PathBetween(nodes, if currentLevel < 0 then 0 else currentLevel + 1, maxLevel)
      decreases currentLevel + 1
    {
      var node := FirstAtLevel(nodes, currentLevel);
      if node.Some? {
        path := [node.value.taskId] + path;
      }
      currentLevel := currentLevel - 1;
    }
    PathBetweenNodes(nodes, 0, maxLevel);
  }

  /** `node?.task.estimatedDuration || 0`: a missing node, a missing
      duration and a zero duration all count 0. */
  function DurationOf(nodes: seq<DAGNode>, id: string): (r: int)
    ensures CoordinatorCycle.FindNode(nodes, id).None? ==> r == 0
  {
    match CoordinatorCycle.FindNode(nodes, id)
    case None => 0
    case Some(n) => n.task.estimatedDuration.GetOr(0)
  }

  /** The `reduce` summing the durations along the path. */
  function PathDuration(nodes: seq<DAGNode>, path: seq<string>): (r: int)
    ensures path == [] ==> r == 0
    ensures (forall id :: id in path ==> DurationOf(nodes, id) >= 0) ==> r >= 0
  {
    if path == [] then 0
    else PathDuration(nodes, path[..|path| - 1]) + DurationOf(nodes, path[|path| - 1])
  }

  lemma {:induction false} PathDurationAppend(nodes: seq<DAGNode>, p: seq<string>, q: seq<string>)
    ensures PathDuration(nodes, p + q) == PathDuration(nodes, p) + PathDuration(nodes, q)
    decreases |q|
  {
    if q == [] {
      assert p + q == p;
    } else {
      assert (p + q)[..|p + q| - 1] == p + q[..|q| - 1];
      PathDurationAppend(nodes, p, q[..|q| - 1]);
    }
  }

  lemma GroupedStep(nodes: seq<DAGNode>, i: nat)
    requires i < |nodes|
    ensures var g := Grouped(nodes[..i]); var x := nodes[i];
      Grouped(nodes[..i + 1]) == Put(g, x.level, Get(g, x.level).GetOr([]) + [x])
  {
    assert nodes[..i + 1][..i] == nodes[..i];
  }

  lemma PathDurationStep(nodes: seq<DAGNode>, path: seq<string>, i: nat)
    requires i < |path|
    ensures PathDuration(nodes, path[..i + 1]) == PathDuration(nodes, path[..i]) + DurationOf(nodes, path[i])
  {
    assert path[..i + 1][..i] == path[..i];
  }

  ghost function Plan(nodes: seq<DAGNode>): ExecutionPlan
  {
    var path := CriticalPath(nodes);
    ExecutionPlan(|nodes|, |Groups(nodes)|, Groups(nodes), path, PathDuration(nodes, path))
  }

  /** `createExecutionPlan`. */
  method CreateExecutionPlan(nodes: seq<DAGNode>) returns (plan: ExecutionPlan)
    ensures plan == Plan(nodes)
  {
    var levelMap: OMap<int, seq<DAGNode>> := Empty();
    for i := 0 to |nodes|
      invariant levelMap == Grouped(nodes[..i])
    {
      GroupedStep(nodes, i);
      var node := nodes[i];
      var group := Get(levelMap, node.level).GetOr([]);
      group := group + [node];
      levelMap := Put(levelMap, node.level, group);
    }
    assert nodes[..|nodes|] == nodes;
    var parallelGroups := Values(levelMap);
    var criticalPath := FindCriticalPath(nodes);
    var estimatedDuration := 0;
    for i := 0 to |criticalPath|
      invariant estimatedDuration == PathDuration(nodes, criticalPath[..i])
    {
      PathDurationStep(nodes, criticalPath, i);
      var node := CoordinatorCycle.FindNode(nodes, criticalPath[i]);
      estimatedDuration := estimatedDuration + (if node.Some? then node.value.task.estimatedDuration.GetOr(0) else 0);
    }
    assert criticalPath[..|criticalPath|] == criticalPath;
    plan := ExecutionPlan(|nodes|, |parallelGroups|, parallelGroups, criticalPath, estimatedDuration);
  }

  /** For level-sorted nodes whose levels run from 0 without gaps: group k
      is the level-k nodes in input order, every node is in the group of its
      level, and the critical path has one id per level, the first node's. */
  lemma PlanOfLayered(nodes: seq<DAGNode>)
    requires CoordinatorDag.SortedByLevel(nodes) && Contiguous(nodes)
    ensures var p := Plan(nodes);
      p.totalTasks == |nodes| && p.levels == |p.parallelGroups| &&
      (forall k :: 0 <= k < p.levels ==> p.parallelGroups[k] == CoordinatorDag.AtLevel(nodes, k)) &&
      (forall n :: n in nodes ==> 0 <= n.level < p.levels && n in p.parallelGroups[n.level]) &&
      |p.criticalPath| == p.levels &&
      (forall k :: 0 <= k < p.levels ==>
        FirstAtLevel(nodes, k).Some? && p.criticalPath[k] == FirstAtLevel(nodes, k).value.taskId)
  {
    var p := Plan(nodes);
    assert p.parallelGroups == Groups(nodes) && p.levels == |Groups(nodes)| && p.criticalPath == CriticalPath(nodes);
    GroupsSpec(nodes);
    GroupsOfLayered(nodes);
    PathOfLayered(nodes);
  }

  lemma GroupsOfLayered(nodes: seq<DAGNode>)
    requires CoordinatorDag.SortedByLevel(nodes) && Contiguous(nodes)
    ensures forall k :: 0 <= k < |Groups(nodes)| ==> Groups(nodes)[k] == CoordinatorDag.AtLevel(nodes, k)
    ensures forall n :: n in nodes ==> 0 <= n.level < |Groups(nodes)| && n in Groups(nodes)[n.level]
  {
    var d := Text.Dedup(LevelsOf(nodes));
    GroupsSpec(nodes);
    LevelsAreRange(nodes);
    forall n | n in nodes ensures 0 <= n.level < |d| && n in Groups(nodes)[n.level] {
      LevelInDistinct(nodes, n);
      var k :| 0 <= k < |d| && d[k] == n.level;
    }
  }

  lemma PathOfLayered(nodes: seq<DAGNode>)
    requires CoordinatorDag.SortedByLevel(nodes) && Contiguous(nodes)
    ensures var d := Text.Dedup(LevelsOf(nodes));
      |CriticalPath(nodes)| == |d| &&
      forall k :: 0 <= k < |d| ==>
        FirstAtLevel(nodes, k).Some? && CriticalPath(nodes)[k] == FirstAtLevel(nodes, k).value.taskId
  {
    var d := Text.Dedup(LevelsOf(nodes));
    LevelsAreRange(nodes);
    if nodes == [] {
      assert LevelsOf(nodes) == [];
    } else {
      var top := MaxLevel(nodes);
      TopIsLast(nodes);
      forall l | 0 <= l <= top ensures FirstAtLevel(nodes, l).Some? {
        assert d[l] == l;
        LevelPresent(nodes, l);
      }
      assert d[0] == 0;
      CriticalPathAt(nodes, 0);
      forall k | 0 <= k < |d| ensures FirstAtLevel(nodes, k).Some? && CriticalPath(nodes)[k] == FirstAtLevel(nodes, k).value.taskId {
        CriticalPathAt(nodes, k);
      }
    }
  }

  /** With every level 0 .. top present, entry k of the path is the first
      node at level k. */
  lemma CriticalPathAt(nodes: seq<DAGNode>, k: nat)
    requires forall l :: 0 <= l <= MaxLevel(nodes) ==> FirstAtLevel(nodes, l).Some?
    requires k <= MaxLevel(nodes)
    ensures |CriticalPath(nodes)| == MaxLevel(nodes) + 1
    ensures CriticalPath(nodes)[k] == FirstAtLevel(nodes, k).value.taskId
  {
    PathBetweenFull(nodes, 0, MaxLevel(nodes));
    assert CriticalPath(nodes)[k] == FirstAtLevel(nodes, 0 + k).value.taskId;
  }

  /** With the distinct levels 0 .. |d| - 1, the highest level is |d| - 1. */
  lemma TopIsLast(nodes: seq<DAGNode>)
    requires nodes != []
    requires var d := Text.Dedup(LevelsOf(nodes)); forall k :: 0 <= k < |d| ==> d[k] == k
    ensures MaxLevel(nodes) == |Text.Dedup(LevelsOf(nodes))| - 1
  {
    var d := Text.Dedup(LevelsOf(nodes));
    var top := MaxLevel(nodes);
    var nt :| nt in nodes && nt.level == top;
    LevelInDistinct(nodes, nt);
    var k :| 0 <= k < |d| && d[k] == top;
    assert d[|d| - 1] in LevelsOf(nodes);
    var i :| 0 <= i < |nodes| && LevelsOf(nodes)[i] == d[|d| - 1];
    assert nodes[i] in nodes;
  }

  /** A level one of the nodes is at has a first node. */
  lemma LevelPresent(nodes: seq<DAGNode>, l: int)
    requires l in Text.Dedup(LevelsOf(nodes))
    ensures FirstAtLevel(nodes, l).Some?
  {
    var j :| 0 <= j < |nodes| && LevelsOf(nodes)[j] == l;
    assert nodes[j] in nodes;
  }
}
