/** CoordinatorAgent, first half: turning an issue's checkbox lines into
    tasks, with the keyword classifiers that fill in each task's type,
    complexity, duration and dependencies. */
module CoordinatorTasks {
  import opened Wrappers
  import opened Text
  import opened AgentTypes

  /** The id of the n-th task: `task-${n}`. */
  function TaskId(n: nat): string
  {
    "task-" + NatToString(n)
  }

  /** Different numbers give different ids. */
  lemma TaskIdInjective(m: nat, n: nat)
    ensures TaskId(m) == TaskId(n) <==> m == n
  {
    if TaskId(m) == TaskId(n) {
      assert TaskId(m)[5..] == NatToString(m);
      assert TaskId(n)[5..] == NatToString(n);
      NatToStringInjective(m, n);
    }
  }

  const CheckboxMarker: string := "- [ ] "

  /** The regular expression `- \[ \] (.+)` can match starting at index i:
      the marker is there and at least one character other than a line
      terminator follows it. */
  predicate CheckboxAt(line: string, i: int)
  {
    OccursAt(line, CheckboxMarker, i) && i + 6 < |line| && !IsLineTerminator(line[i + 6])
  }

  /** The leftmost index at or after `from` where a checkbox match starts. */
  function FirstCheckbox(line: string, from: nat): (r: Option<nat>)
    ensures r.Some? ==> from <= r.value && CheckboxAt(line, r.value)
    ensures r.Some? ==> forall k :: from <= k < r.value ==> !CheckboxAt(line, k)
    ensures r.None? ==> forall k :: from <= k ==> !CheckboxAt(line, k)
    decreases |line| - from
  {
    if from + 6 >= |line| then None
    else if CheckboxAt(line, from) then Some(from)
    else FirstCheckbox(line, from + 1)
  }

  /** The index of the first line terminator at or after j, or the end. */
  function LineEnd(line: string, j: nat): (e: nat)
    requires j <= |line|
    ensures j <= e <= |line|
    ensures e < |line| ==> IsLineTerminator(line[e])
    ensures forall k :: j <= k < e ==> !IsLineTerminator(line[k])
    decreases |line| - j
  {
    if j == |line| || IsLineTerminator(line[j]) then j else LineEnd(line, j + 1)
  }

  /** `line.match(/- \[ \] (.+)/)` followed by `match[1].trim()`: the
      trimmed text after the leftmost marker, up to the end of the line. */
  function TitleOf(line: string): (r: Option<string>)
    ensures r.Some? <==> exists i :: CheckboxAt(line, i)
  {
    match FirstCheckbox(line, 0)
    case None => None
    case Some(i) =>
      var e := LineEnd(line, i + 6);
      assert e > i + 6;
      Some(Trim(line[i + 6..e]))
  }

  /** `title.toLowerCase().includes(word)`. */
  predicate Mentions(text: string, word: string)
  {
    Contains(Lower(text), word)
  }

  /** `inferTaskType`: the first keyword group that matches decides. */
  function InferTaskType(title: string): (r: TaskType)
    ensures r == Bug <==> Mentions(title, "bug") || Mentions(title, "fix")
    ensures r == Test <==> !Mentions(title, "bug") && !Mentions(title, "fix") && Mentions(title, "test")
    ensures r == Docs <==> !Mentions(title, "bug") && !Mentions(title, "fix") && !Mentions(title, "test") &&
                           Mentions(title, "doc")
    ensures r == Refactor <==> !Mentions(title, "bug") && !Mentions(title, "fix") && !Mentions(title, "test") &&
                               !Mentions(title, "doc") && Mentions(title, "refactor")
    ensures r == Security <==> !Mentions(title, "bug") && !Mentions(title, "fix") && !Mentions(title, "test") &&
                               !Mentions(title, "doc") && !Mentions(title, "refactor") && Mentions(title, "security")
    ensures r == Feature <==> !Mentions(title, "bug") && !Mentions(title, "fix") && !Mentions(title, "test") &&
                              !Mentions(title, "doc") && !Mentions(title, "refactor") && !Mentions(title, "security")
    ensures r in {Bug, Test, Docs, Refactor, Security, Feature}
  {
    if Mentions(title, "bug") || Mentions(title, "fix") then Bug
    else if Mentions(title, "test") then Test
    else if Mentions(title, "doc") then Docs
    else if Mentions(title, "refactor") then Refactor
    else if Mentions(title, "security") then Security
    else Feature
  }

  /** `inferPriority`: taken from the issue's labels, P2 by default. */
  function InferPriority(issue: Issue): (r: TaskPriority)
    ensures r == P0Critical <==> "P0-Critical" in issue.labels
    ensures r == P1High <==> "P0-Critical" !in issue.labels && "P1-High" in issue.labels
    ensures r == P3Low <==> "P0-Critical" !in issue.labels && "P1-High" !in issue.labels && "P3-Low" in issue.labels
  {
    if "P0-Critical" in issue.labels then P0Critical
    else if "P1-High" in issue.labels then P1High
    else if "P3-Low" in issue.labels then P3Low
    else P2Medium
  }

  /** `inferComplexity`. */
  function InferComplexity(title: string): (r: TaskComplexity)
    ensures r == XLarge <==> Mentions(title, "大規模") || Mentions(title, "アーキテクチャ")
    ensures r == Large <==> !Mentions(title, "大規模") && !Mentions(title, "アーキテクチャ") &&
                            (Mentions(title, "統合") || Mentions(title, "実装"))
    ensures r == Medium <==> !Mentions(title, "大規模") && !Mentions(title, "アーキテクチャ") &&
                             !Mentions(title, "統合") && !Mentions(title, "実装") &&
                             (Mentions(title, "修正") || Mentions(title, "追加"))
    ensures r == Small <==> !Mentions(title, "大規模") && !Mentions(title, "アーキテクチャ") &&
                            !Mentions(title, "統合") && !Mentions(title, "実装") &&
                            !Mentions(title, "修正") && !Mentions(title, "追加")
  {
    if Mentions(title, "大規模") || Mentions(title, "アーキテクチャ") then XLarge
    else if Mentions(title, "統合") || Mentions(title, "実装") then Large
    else if Mentions(title, "修正") || Mentions(title, "追加") then Medium
    else Small
  }

  /** `estimateDuration`, in milliseconds: one hour, 30, 10 or 5 minutes. */
  function EstimateDuration(title: string): (r: nat)
    ensures r in {3600000, 1800000, 600000, 300000}
    ensures r == 3600000 <==> Mentions(title, "大規模") || Mentions(title, "フレームワーク")
    ensures r == 300000 <==> !Mentions(title, "大規模") && !Mentions(title, "フレームワーク") &&
                             !Mentions(title, "実装") && !Mentions(title, "作成") &&
                             !Mentions(title, "修正") && !Mentions(title, "追加")
  {
    if Mentions(title, "大規模") || Mentions(title, "フレームワーク") then 3600000
    else if Mentions(title, "実装") || Mentions(title, "作成") then 1800000
    else if Mentions(title, "修正") || Mentions(title, "追加") then 600000
    else 300000
  }

  predicate IsTestTitle(title: string)
  {
    Mentions(title, "test") || Mentions(title, "テスト")
  }

  predicate IsDeployTitle(title: string)
  {
    Mentions(title, "deploy") || Mentions(title, "デプロイ")
  }

  /** The ids of tasks 1 .. n-1. */
  function AllBefore(n: nat): (r: seq<string>)
    ensures |r| == if n == 0 then 0 else n - 1
    ensures forall k :: 0 <= k < |r| ==> r[k] == TaskId(k + 1)
  {
    if n <= 1 then [] else AllBefore(n - 1) + [TaskId(n - 1)]
  }

  /** What `inferDependencies(n, title)` returns. */
  function Dependencies(n: nat, title: string): (r: seq<string>)
    requires n >= 1
    ensures n == 1 ==> r == []
    ensures n > 1 && IsTestTitle(title) ==> r == [TaskId(n - 1)]
    ensures n > 1 && !IsTestTitle(title) && IsDeployTitle(title) ==> r == AllBefore(n)
    ensures !IsTestTitle(title) && !IsDeployTitle(title) ==> r == []
    ensures forall k :: 0 <= k < |r| ==> exists j :: 1 <= j < n && r[k] == TaskId(j)
  {
    if n == 1 then []
    else if IsTestTitle(title) then [TaskId(n - 1)]
    else if IsDeployTitle(title) then AllBefore(n)
    else []
  }

  /** `inferDependencies`: none for the first task, the previous task for a
      test, every earlier task for a deployment. */
  method InferDependencies(n: nat, title: string) returns (deps: seq<string>)
    requires n >= 1
    ensures deps == Dependencies(n, title)
  {
    if n == 1 {
      return [];
    }
    if IsTestTitle(title) {
      return [TaskId(n - 1)];
    }
    if IsDeployTitle(title) {
      deps := [];
      for i := 1 to n
        invariant deps == AllBefore(i)
      {
        deps := deps + [TaskId(i)];
      }
      return;
    }
    return [];
  }

  /** The task built for the n-th checkbox line with the given title. */
  function MakeTask(n: nat, title: string, issue: Issue): Task
    requires n >= 1
  {
    Task(TaskId(n), title, title, InferTaskType(title), InferPriority(issue), Pending,
         Dependencies(n, title), Some(EstimateDuration(title)), InferComplexity(title))
  }

  /** The titles of the lines that hold a checkbox, in line order. */
  function Titles(lines: seq<string>): (r: seq<string>)
  {
    if lines == [] then []
    else
      var init := Titles(lines[..|lines| - 1]);
      match TitleOf(lines[|lines| - 1])
      case Some(t) => init + [t]
      case None => init
  }

  /** The tasks made from a list of lines. */
  ghost function TasksOf(lines: seq<string>, issue: Issue): (r: seq<Task>)
    ensures |r| == |Titles(lines)|
  {
    if lines == [] then []
    else
      var init := TasksOf(lines[..|lines| - 1], issue);
      match TitleOf(lines[|lines| - 1])
      case Some(t) => init + [MakeTask(|init| + 1, t, issue)]
      case None => init
  }

  /** `decomposeTasks`: one task per checkbox line of the body. */
  ghost function Decompose(issue: Issue): seq<Task>
  {
    TasksOf(Split(issue.body, '\n'), issue)
  }

  method DecomposeTasks(issue: Issue) returns (tasks: seq<Task>)
    ensures tasks == Decompose(issue)
  {
    tasks := [];
    var lines := Split(issue.body, '\n');
    var taskId := 1;
    for k := 0 to |lines|
      invariant tasks == TasksOf(lines[..k], issue)
      invariant taskId == |tasks| + 1
    {
      assert lines[..k + 1][..k] == lines[..k];
      match TitleOf(lines[k]) {
        case Some(title) =>
          var deps := InferDependencies(taskId, title);
          tasks := tasks + [Task(TaskId(taskId), title, title, InferTaskType(title), InferPriority(issue),
                                 Pending, deps, Some(EstimateDuration(title)), InferComplexity(title))];
          taskId := taskId + 1;
        case None =>
      }
    }
    assert lines[..|lines|] == lines;
  }

  /** Task k made from the k-th title, for every k. */
  function MakeTasks(titles: seq<string>, issue: Issue): (r: seq<Task>)
    ensures |r| == |titles|
  {
    seq(|titles|, k requires 0 <= k < |titles| => MakeTask(k + 1, titles[k], issue))
  }

  lemma MakeTasksSnoc(titles: seq<string>, t: string, issue: Issue)
    ensures MakeTasks(titles + [t], issue) == MakeTasks(titles, issue) + [MakeTask(|titles| + 1, t, issue)]
  {
  }

  /** Building the tasks line by line is numbering the titles: task k
      (counting from 0) is made from the k-th checkbox line's title with id
      `task-(k+1)`. */
  lemma {:induction false} TasksOfMade(lines: seq<string>, issue: Issue)
    ensures TasksOf(lines, issue) == MakeTasks(Titles(lines), issue)
  {
    if lines != [] {
      var init := lines[..|lines| - 1];
      TasksOfMade(init, issue);
      match TitleOf(lines[|lines| - 1]) {
        case Some(t) => MakeTasksSnoc(Titles(init), t, issue);
        case None =>
      }
    }
  }

  /** The properties the scheduler relies on, stated for the issue's tasks. */
  lemma DecomposeSpec(issue: Issue)
    ensures var ts := Decompose(issue); var titles := Titles(Split(issue.body, '\n'));
      |ts| == |titles| &&
      forall k :: 0 <= k < |ts| ==>
        ts[k].id == TaskId(k + 1) && ts[k].title == titles[k] && ts[k].status == Pending &&
        (k == 0 ==> ts[k].dependencies == []) &&
        (forall d :: d in ts[k].dependencies ==> exists j :: 1 <= j <= k && d == TaskId(j))
  {
    var lines := Split(issue.body, '\n');
    var titles := Titles(lines);
    TasksOfMade(lines, issue);
    var ts := Decompose(issue);
    forall k | 0 <= k < |ts|
      ensures ts[k].id == TaskId(k + 1) && ts[k].title == titles[k] && ts[k].status == Pending &&
        (k == 0 ==> ts[k].dependencies == []) &&
        (forall d :: d in ts[k].dependencies ==> exists j :: 1 <= j <= k && d == TaskId(j))
    {
      assert ts[k] == MakeTask(k + 1, titles[k], issue);
      MadeTask(k + 1, titles[k], issue);
    }
  }

  /** The n-th task made from a title. */
  lemma MadeTask(n: nat, title: string, issue: Issue)
    requires n >= 1
    ensures var t := MakeTask(n, title, issue);
      t.id == TaskId(n) && t.title == title && t.status == Pending &&
      (n == 1 ==> t.dependencies == []) &&
      (forall d :: d in t.dependencies ==> exists j :: 1 <= j < n && d == TaskId(j))
  {
    var t := MakeTask(n, title, issue);
    forall d | d in t.dependencies
      ensures exists j :: 1 <= j < n && d == TaskId(j)
    {
      var i :| 0 <= i < |t.dependencies| && t.dependencies[i] == d;
    }
  }
}
