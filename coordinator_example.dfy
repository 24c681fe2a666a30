/** The coordinator on the three-checkbox issue the `agent` command feeds
    the orchestrator: three independent tasks on level 0. */
module CoordinatorExample {
  import opened Wrappers
  import opened Text
  import opened AgentTypes
  import opened BaseAgent
  import CoordinatorTasks
  import CoordinatorDag
  import CoordinatorCycle
  import CoordinatorPlan
  import CoordinatorAgent

  const Line1: string := "- [ ] タスク1"
  const Line2: string := "- [ ] タスク2"
  const Line3: string := "- [ ] タスク3"

  function MockIssue(number: int, title: string): Issue
  {
    Issue(number, title, Line1 + "\n" + Line2 + "\n" + Line3, [])
  }

  lemma MockLines(number: int, title: string)
    ensures Split(MockIssue(number, title).body, '\n') == [Line1, Line2, Line3]
  {
    assert Line1 + "\n" + Line2 + "\n" + Line3 == Line1 + ['\n'] + (Line2 + ['\n'] + Line3);
    SplitCons(Line1, '\n', Line2 + ['\n'] + Line3);
    SplitCons(Line2, '\n', Line3);
    SplitNoSep(Line3, '\n');
  }

  /** A checkbox line with a plain title gives that title. */
  lemma PlainTitle(name: string)
    requires |name| == 4 && forall c :: c in name ==> !IsWhitespace(c) && !IsLineTerminator(c)
    ensures CoordinatorTasks.TitleOf("- [ ] " + name) == Some(name)
  {
    var line := "- [ ] " + name;
    assert line[0..6] == "- [ ] ";
    assert line[6] == name[0] && name[0] in name;
    assert CoordinatorTasks.CheckboxAt(line, 0);
    assert CoordinatorTasks.FirstCheckbox(line, 0) == Some(0);
    forall k | 6 <= k < |line| ensures !IsLineTerminator(line[k]) {
      assert line[k] == name[k - 6] && name[k - 6] in name;
    }
    assert CoordinatorTasks.LineEnd(line, 6) == |line|;
    assert line[6..|line|] == name;
    assert name[0] in name && name[|name| - 1] in name;
    assert TrimStart(name) == name;
    assert TrimEnd(name) == name;
  }

  /** A title with none of the keyword characters is a default task: it
      takes five minutes and depends on nothing. */
  lemma PlainTask(n: nat, name: string)
    requires n >= 1 && |name| == 4
    requires forall c :: c in name ==> !('A' <= c <= 'Z')
    requires 't' !in name && 'テ' !in name && 'd' !in name && 'デ' !in name
    requires '大' !in name && 'フ' !in name && '実' !in name && '作' !in name && '修' !in name && '追' !in name
    ensures CoordinatorTasks.Dependencies(n, name) == []
    ensures CoordinatorTasks.EstimateDuration(name) == 300000
  {
    assert Lower(name) == name by {
      forall i | 0 <= i < |name| ensures Lower(name)[i] == name[i] {
        assert name[i] in name;
      }
    }
    NotContainsMissingChar(name, "test", 0);
    NotContainsMissingChar(name, "テスト", 0);
    NotContainsMissingChar(name, "deploy", 0);
    NotContainsMissingChar(name, "デプロイ", 0);
    NotContainsMissingChar(name, "大規模", 0);
    NotContainsMissingChar(name, "フレームワーク", 0);
    NotContainsMissingChar(name, "実装", 0);
    NotContainsMissingChar(name, "作成", 0);
    NotContainsMissingChar(name, "修正", 0);
    NotContainsMissingChar(name, "追加", 0);
  }

  lemma MockTitles(number: int, title: string)
    ensures CoordinatorTasks.Titles(Split(MockIssue(number, title).body, '\n')) == ["タスク1", "タスク2", "タスク3"]
  {
    MockLines(number, title);
    LineTitles();
    TitlesOfThree(Line1, Line2, Line3, "タスク1", "タスク2", "タスク3");
  }

  lemma LineTitles()
    ensures CoordinatorTasks.TitleOf(Line1) == Some("タスク1")
    ensures CoordinatorTasks.TitleOf(Line2) == Some("タスク2")
    ensures CoordinatorTasks.TitleOf(Line3) == Some("タスク3")
  {
    Line1Title();
    Line2Title();
    Line3Title();
  }

  lemma Line1Title()
    ensures CoordinatorTasks.TitleOf(Line1) == Some("タスク1")
  {
    assert Line1 == "- [ ] " + "タスク1";
    PlainTitle("タスク1");
  }

  lemma Line2Title()
    ensures CoordinatorTasks.TitleOf(Line2) == Some("タスク2")
  {
    assert Line2 == "- [ ] " + "タスク2";
    PlainTitle("タスク2");
  }

  lemma Line3Title()
    ensures CoordinatorTasks.TitleOf(Line3) == Some("タスク3")
  {
    assert Line3 == "- [ ] " + "タスク3";
    PlainTitle("タスク3");
  }

  lemma TitlesOfThree(a: string, b: string, c: string, x: string, y: string, z: string)
    requires CoordinatorTasks.TitleOf(a) == Some(x)
    requires CoordinatorTasks.TitleOf(b) == Some(y)
    requires CoordinatorTasks.TitleOf(c) == Some(z)
    ensures CoordinatorTasks.Titles([a, b, c]) == [x, y, z]
  {
    var ls, ts := [a, b, c], [x, y, z];
    assert ls[0] == a && ls[1] == b && ls[2] == c;
    assert ts[0] == x && ts[1] == y && ts[2] == z;
    forall i | 0 <= i < 3
      ensures CoordinatorTasks.TitleOf(ls[i]) == Some(ts[i])
    {
      if i == 0 {
      } else if i == 1 {
      } else {
        assert i == 2;
      }
    }
    TitlesAll(ls, ts);
  }

  /** Lines that each hold a checkbox give their titles in order. */
  lemma {:induction false} TitlesAll(ls: seq<string>, ts: seq<string>)
    requires |ls| == |ts|
    requires forall i :: 0 <= i < |ls| ==> CoordinatorTasks.TitleOf(ls[i]) == Some(ts[i])
    ensures CoordinatorTasks.Titles(ls) == ts
  {
    if ls != [] {
      var n := |ls| - 1;
      TitlesAll(ls[..n], ts[..n]);
      assert CoordinatorTasks.TitleOf(ls[n]) == Some(ts[n]);
      LastSplit(ts);
    }
  }

  lemma LastSplit(ts: seq<string>)
    requires ts != []
    ensures ts == ts[..|ts| - 1] + [ts[|ts| - 1]]
  {
  }

  lemma MockTasks(number: int, title: string)
    ensures var ts := CoordinatorTasks.Decompose(MockIssue(number, title));
      |ts| == 3 && ts[0].id == "task-1" &&
      forall k :: 0 <= k < 3 ==> ts[k].dependencies == [] && ts[k].estimatedDuration == Some(300000)
  {
    var issue := MockIssue(number, title);
    var lines := Split(issue.body, '\n');
    assert CoordinatorTasks.Decompose(issue) == CoordinatorTasks.TasksOf(lines, issue);
    MockTitles(number, title);
    Name1Plain();
    Name2Plain();
    Name3Plain();
    ThreePlainTasks(lines, issue, "タスク1", "タスク2", "タスク3");
    FirstId();
  }

  lemma FirstId()
    ensures CoordinatorTasks.TaskId(1) == "task-1"
  {
    assert NatToString(1) == "1";
  }

  lemma ThreePlainTasks(lines: seq<string>, issue: Issue, x: string, y: string, z: string)
    requires CoordinatorTasks.Titles(lines) == [x, y, z]
    requires CoordinatorTasks.Dependencies(1, x) == [] && CoordinatorTasks.EstimateDuration(x) == 300000
    requires CoordinatorTasks.Dependencies(2, y) == [] && CoordinatorTasks.EstimateDuration(y) == 300000
    requires CoordinatorTasks.Dependencies(3, z) == [] && CoordinatorTasks.EstimateDuration(z) == 300000
    ensures var ts := CoordinatorTasks.TasksOf(lines, issue);
      |ts| == 3 && ts[0].id == CoordinatorTasks.TaskId(1) &&
      forall k :: 0 <= k < 3 ==> ts[k].dependencies == [] && ts[k].estimatedDuration == Some(300000)
  {
    CoordinatorTasks.TasksOfMade(lines, issue);
    var ts := CoordinatorTasks.MakeTasks([x, y, z], issue);
    assert ts[0] == CoordinatorTasks.MakeTask(1, x, issue);
    assert ts[1] == CoordinatorTasks.MakeTask(2, y, issue);
    assert ts[2] == CoordinatorTasks.MakeTask(3, z, issue);
  }

  lemma Name1Plain()
    ensures CoordinatorTasks.Dependencies(1, "タスク1") == [] && CoordinatorTasks.EstimateDuration("タスク1") == 300000
  {
    PlainTask(1, "タスク1");
  }

  lemma Name2Plain()
    ensures CoordinatorTasks.Dependencies(2, "タスク2") == [] && CoordinatorTasks.EstimateDuration("タスク2") == 300000
  {
    PlainTask(2, "タスク2");
  }

  lemma Name3Plain()
    ensures CoordinatorTasks.Dependencies(3, "タスク3") == [] && CoordinatorTasks.EstimateDuration("タスク3") == 300000
  {
    PlainTask(3, "タスク3");
  }

  /** Three level-0 tasks, one parallel group, the path `[task-1]` and
      five minutes of estimated work. */
  lemma MockIssueRun(number: int, title: string)
    ensures var o := CoordinatorAgent.RunOutcome(MockIssue(number, title));
      o.Returned? && o.part.data.Some? &&
      var d := o.part.data.value;
      |d.tasks| == 3 && |d.dagNodes| == 3 && (forall n :: n in d.dagNodes ==> n.level == 0) &&
      d.plan.levels == 1 && d.plan.criticalPath == ["task-1"] && d.plan.estimatedDuration == 300000
  {
    MockTasks(number, title);
    MockIssuePlan(MockIssue(number, title), CoordinatorTasks.Decompose(MockIssue(number, title)));
  }

  lemma MockIssuePlan(issue: Issue, ts: seq<Task>)
    requires ts == CoordinatorTasks.Decompose(issue) && |ts| == 3
    requires forall k :: 0 <= k < 3 ==> ts[k].dependencies == [] && ts[k].estimatedDuration == Some(300000)
    requires ts[0].id == "task-1"
    ensures var o := CoordinatorAgent.RunOutcome(issue);
      o.Returned? && o.part.data.Some? &&
      var d := o.part.data.value;
      |d.tasks| == 3 && |d.dagNodes| == 3 && (forall n :: n in d.dagNodes ==> n.level == 0) &&
      d.plan.levels == 1 && d.plan.criticalPath == ["task-1"] && d.plan.estimatedDuration == 300000
  {
    CoordinatorAgent.DecomposedRanked(issue);
    var nodes := CoordinatorAgent.DagOf(issue);
    CoordinatorAgent.DagOfSound(issue);
    FlatDag(ts, CoordinatorAgent.IdRank(ts));
    assert nodes == CoordinatorDag.Dag(ts, CoordinatorAgent.IdRank(ts));
    FlatPlan(nodes);
  }

  /** Tasks without dependencies all sit on level 0, in input order. */
  lemma FlatDag(ts: seq<Task>, rank: map<string, nat>)
    requires CoordinatorDag.Ranked(CoordinatorDag.TaskMap(ts), rank)
    requires forall k :: 0 <= k < |ts| ==> ts[k].dependencies == []
    ensures var nodes := CoordinatorDag.Dag(ts, rank);
      |nodes| == |ts| && (forall n :: n in nodes ==> n.level == 0) &&
      forall k :: 0 <= k < |ts| ==> nodes[k].taskId == ts[k].id && nodes[k].task == ts[k]
  {
    var m := CoordinatorDag.TaskMap(ts);
    var nodes := CoordinatorDag.Dag(ts, rank);
    CoordinatorDag.DagSpec(ts, rank);
    var u := CoordinatorDag.LevelledNodes(ts, m, rank);
    forall k | 0 <= k < |ts| ensures u[k].level == 0 {
      assert CoordinatorDag.Level(ts[k], m, rank) == CoordinatorDag.DepsLevel([], m, rank);
    }
    forall n | n in nodes ensures n.level == 0 {
      assert n in multiset(u);
    }
    assert CoordinatorDag.AtLevel(nodes, 0) == CoordinatorDag.AtLevel(u, 0);
    AllAtLevel(u, 0);
    AllAtLevel(nodes, 0);
  }

  /** The plan of three level-0 nodes. */
  lemma FlatPlan(nodes: seq<DAGNode>)
    requires |nodes| == 3 && forall n :: n in nodes ==> n.level == 0
    requires nodes[0].taskId == "task-1" && nodes[0].task.estimatedDuration == Some(300000)
    ensures var p := CoordinatorPlan.Plan(nodes);
      p.levels == 1 && p.criticalPath == ["task-1"] && p.estimatedDuration == 300000
  {
    assert CoordinatorDag.SortedByLevel(nodes);
    CoordinatorPlan.PlanOfLayered(nodes);
    var p := CoordinatorPlan.Plan(nodes);
    assert nodes[0] in nodes;
    assert p.levels == 1;
    assert CoordinatorPlan.FirstAtLevel(nodes, 0) == Some(nodes[0]);
    assert p.criticalPath == ["task-1"];
    assert CoordinatorCycle.FindNode(nodes, "task-1") == Some(nodes[0]);
    assert ["task-1"][..0] == [];
    assert p.estimatedDuration == CoordinatorPlan.PathDuration(nodes, ["task-1"]);
  }

  lemma {:induction false} AllAtLevel(s: seq<DAGNode>, l: int)
    requires forall n :: n in s ==> n.level == l
    ensures CoordinatorDag.AtLevel(s, l) == s
  {
    if s != [] {
      AllAtLevel(s[..|s| - 1], l);
      assert s[..|s| - 1] + [s[|s| - 1]] == s;
    }
  }
}
