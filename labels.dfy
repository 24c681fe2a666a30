/** The repository's label table and `setupLabels`, which creates or
    updates every label of the table through the GitHub API. */
module Labels {
  import opened Wrappers
  import opened Text

  datatype Label = Label(name: string, color: string, description: string)

  const TypeLabels: seq<Label> := [
    Label("type:bug", "d73a4a", "バグ修正"),
    Label("type:feature", "a2eeef", "新機能"),
    Label("type:refactor", "fbca04", "リファクタリング"),
    Label("type:docs", "0075ca", "ドキュメント"),
    Label("type:test", "1d76db", "テスト"),
    Label("type:chore", "fef2c0", "雑務"),
    Label("type:security", "d93f0b", "セキュリティ")]

  const PriorityLabels: seq<Label> := [
    Label("priority:P0-critical", "b60205", "最優先"),
    Label("priority:P1-high", "d93f0b", "高優先度"),
    Label("priority:P2-medium", "fbca04", "中優先度"),
    Label("priority:P3-low", "0e8a16", "低優先度")]

  const StateLabels: seq<Label> := [
    Label("state:pending", "ededed", "未着手"),
    Label("state:analyzing", "d4c5f9", "分析中"),
    Label("state:implementing", "5319e7", "実装中"),
    Label("state:reviewing", "fbca04", "レビュー中"),
    Label("state:testing", "1d76db", "テスト中"),
    Label("state:deploying", "0e8a16", "デプロイ中"),
    Label("state:done", "0e8a16", "完了"),
    Label("state:blocked", "d73a4a", "ブロック中")]

  const AgentLabels: seq<Label> := [
    Label("agent:coordinator", "bfd4f2", "CoordinatorAgent"),
    Label("agent:codegen", "d4c5f9", "CodeGenAgent"),
    Label("agent:review", "c2e0c6", "ReviewAgent"),
    Label("agent:test", "c5def5", "TestAgent"),
    Label("agent:pr", "fef2c0", "PRAgent"),
    Label("agent:deployment", "bfdadc", "DeploymentAgent"),
    Label("agent:issue", "e99695", "IssueAgent")]

  const ComplexityLabels: seq<Label> := [
    Label("complexity:small", "c2e0c6", "小規模"),
    Label("complexity:medium", "fbca04", "中規模"),
    Label("complexity:large", "d93f0b", "大規模"),
    Label("complexity:xlarge", "b60205", "特大規模")]

  const PhaseLabels: seq<Label> := [
    Label("phase:planning", "bfd4f2", "計画"),
    Label("phase:design", "d4c5f9", "設計"),
    Label("phase:implementation", "5319e7", "実装"),
    Label("phase:testing", "1d76db", "テスト"),
    Label("phase:deployment", "0e8a16", "デプロイ"),
    Label("phase:maintenance", "fbca04", "保守")]

  const ImpactLabels: seq<Label> := [
    Label("impact:breaking", "d73a4a", "破壊的変更"),
    Label("impact:major", "d93f0b", "大きな影響"),
    Label("impact:minor", "fbca04", "小さな影響"),
    Label("impact:patch", "c2e0c6", "パッチレベル")]

  const CategoryLabels: seq<Label> := [
    Label("category:frontend", "5319e7", "フロントエンド"),
    Label("category:backend", "1d76db", "バックエンド"),
    Label("category:infra", "0e8a16", "インフラ"),
    Label("category:dx", "fbca04", "開発者体験"),
    Label("category:security", "d93f0b", "セキュリティ")]

  const EffortLabels: seq<Label> := [
    Label("effort:1h", "c2e0c6", "1時間"),
    Label("effort:4h", "bfdadc", "4時間"),
    Label("effort:1d", "bfd4f2", "1日"),
    Label("effort:3d", "fbca04", "3日"),
    Label("effort:1w", "d93f0b", "1週間"),
    Label("effort:2w", "b60205", "2週間")]

  const BlockedLabels: seq<Label> := [
    Label("blocked:waiting-review", "fbca04", "レビュー待ち"),
    Label("blocked:waiting-deployment", "d93f0b", "デプロイ待ち")]

  /** `MIYABI_LABELS`: the ten groups in the order of the table. */
  const MiyabiLabels: seq<Label> :=
    TypeLabels + PriorityLabels + StateLabels + AgentLabels + ComplexityLabels +
    PhaseLabels + ImpactLabels + CategoryLabels + EffortLabels + BlockedLabels

  predicate IsHexDigit(c: char)
  {
    '0' <= c <= '9' || 'a' <= c <= 'f'
  }

  /** Six lower-case hexadecimal digits. */
  predicate HexColor(s: string)
  {
    |s| == 6 && forall k :: 0 <= k < |s| ==> IsHexDigit(s[k])
  }

  predicate IsValueChar(c: char)
  {
    'a' <= c <= 'z' || 'A' <= c <= 'Z' || '0' <= c <= '9' || c == '-'
  }

  /** Lower-case letters followed by ':'. */
  predicate ColonWord(p: string)
  {
    |p| >= 2 && p[|p| - 1] == ':' && forall k :: 0 <= k < |p| - 1 ==> 'a' <= p[k] <= 'z'
  }

  predicate ValueChars(s: string)
  {
    forall k :: 0 <= k < |s| ==> IsValueChar(s[k])
  }

  /** The name is the prefix and a non-empty value of letters, digits and
      '-', and the colour is six hexadecimal digits. */
  predicate LabelOk(prefix: string, l: Label)
  {
    prefix <= l.name && |l.name| > |prefix| && ValueChars(l.name[|prefix|..]) && HexColor(l.color)
  }

  predicate DistinctNames(ls: seq<Label>)
  {
    forall i, j :: 0 <= i < j < |ls| ==> ls[i].name != ls[j].name
  }

  /** `prefix:value`: one ':' with letters before it and something after it. */
  predicate NameShape(name: string)
  {
    var i := IndexOf(name, ':');
    0 < i < |name| - 1 && ':' !in name[i + 1..]
  }

  lemma LabelOkShape(prefix: string, l: Label)
    requires ColonWord(prefix) && LabelOk(prefix, l)
    ensures NameShape(l.name) && PrefixOf(l.name) == prefix
  {
    var n := l.name;
    assert n[..|prefix|] == prefix;
    assert ':' !in n[..|prefix| - 1] by {
      forall k | 0 <= k < |prefix| - 1 ensures n[k] != ':' {
        assert n[k] == prefix[k];
      }
    }
    assert n[|prefix| - 1] == ':';
    assert IndexOf(n, ':') == |prefix| - 1;
    forall k | 0 <= k < |n[|prefix|..]| ensures n[|prefix|..][k] != ':' {
      assert IsValueChar(n[|prefix|..][k]);
    }
  }

  /** Every label of the group has the prefix and a well-formed value. */
  predicate GroupOk(ls: seq<Label>, prefix: string)
  {
    forall i :: 0 <= i < |ls| ==> LabelOk(prefix, ls[i])
  }

  predicate Shaped(ls: seq<Label>)
  {
    forall i :: 0 <= i < |ls| ==> NameShape(ls[i].name) && HexColor(ls[i].color)
  }

  /** The part of a name up to and including its first ':'. */
  function PrefixOf(name: string): string
  {
    var i := IndexOf(name, ':');
    if i < 0 then "" else name[..i + 1]
  }

  predicate PrefixesIn(ls: seq<Label>, ps: set<string>)
  {
    forall i :: 0 <= i < |ls| ==> PrefixOf(ls[i].name) in ps
  }

  lemma GroupShaped(ls: seq<Label>, prefix: string)
    requires ColonWord(prefix) && GroupOk(ls, prefix)
    ensures Shaped(ls)
  {
    forall i | 0 <= i < |ls| ensures NameShape(ls[i].name) && HexColor(ls[i].color) {
      LabelOkShape(prefix, ls[i]);
    }
  }

  lemma ShapedAppend(a: seq<Label>, b: seq<Label>)
    requires Shaped(a) && Shaped(b)
    ensures Shaped(a + b)
  {
    assert forall i :: |a| <= i < |a + b| ==> (a + b)[i] == b[i - |a|];
  }

  lemma GroupPrefixes(ls: seq<Label>, prefix: string)
    requires ColonWord(prefix) && GroupOk(ls, prefix)
    ensures PrefixesIn(ls, {prefix})
  {
    forall i | 0 <= i < |ls| ensures PrefixOf(ls[i].name) == prefix {
      LabelOkShape(prefix, ls[i]);
    }
  }

  /** A group whose prefix no earlier name has adds only new names. */
  lemma DistinctAppend(a: seq<Label>, ps: set<string>, b: seq<Label>, p: string)
    requires DistinctNames(a) && PrefixesIn(a, ps)
    requires DistinctNames(b) && PrefixesIn(b, {p}) && p !in ps
    ensures DistinctNames(a + b) && PrefixesIn(a + b, ps + {p})
  {
    forall i, j | 0 <= i < j < |a + b| ensures (a + b)[i].name != (a + b)[j].name {
      if i < |a| && j >= |a| {
        assert (a + b)[j] == b[j - |a|];
        assert PrefixOf(b[j - |a|].name) == p;
      } else if i >= |a| {
        assert (a + b)[i] == b[i - |a|] && (a + b)[j] == b[j - |a|];
      }
    }
    assert forall i :: |a| <= i < |a + b| ==> (a + b)[i] == b[i - |a|];
  }

  lemma TypeLabelsOkLow() ensures forall i :: 0 <= i < 3 ==> LabelOk("type:", TypeLabels[i]) {}
  lemma TypeLabelsOkHigh() ensures forall i :: 3 <= i < 7 ==> LabelOk("type:", TypeLabels[i]) {}
  lemma TypeLabelsOk() ensures forall i :: 0 <= i < |TypeLabels| ==> LabelOk("type:", TypeLabels[i])
  {
    TypeLabelsOkLow();
    TypeLabelsOkHigh();
  }
  lemma TypeLabelsDistinct() ensures DistinctNames(TypeLabels) {}

  lemma PriorityLabelsOkLow() ensures forall i :: 0 <= i < 2 ==> LabelOk("priority:", PriorityLabels[i]) {}
  lemma PriorityLabelsOkHigh() ensures forall i :: 2 <= i < 4 ==> LabelOk("priority:", PriorityLabels[i]) {}
  lemma PriorityLabelsOk() ensures forall i :: 0 <= i < |PriorityLabels| ==> LabelOk("priority:", PriorityLabels[i])
  {
    PriorityLabelsOkLow();
    PriorityLabelsOkHigh();
  }
  lemma PriorityLabelsDistinct() ensures DistinctNames(PriorityLabels) {}

  lemma StateLabelsOkLow() ensures forall i :: 0 <= i < 4 ==> LabelOk("state:", StateLabels[i]) {}
  lemma StateLabelsOkHigh() ensures forall i :: 4 <= i < 8 ==> LabelOk("state:", StateLabels[i]) {}
  lemma StateLabelsOk() ensures forall i :: 0 <= i < |StateLabels| ==> LabelOk("state:", StateLabels[i])
  {
    StateLabelsOkLow();
    StateLabelsOkHigh();
  }
  lemma StateLabelsDistinct() ensures DistinctNames(StateLabels) {}

  lemma AgentLabelsOkLow() ensures forall i :: 0 <= i < 3 ==> LabelOk("agent:", AgentLabels[i]) {}
  lemma AgentLabelsOkHigh() ensures forall i :: 3 <= i < 7 ==> LabelOk("agent:", AgentLabels[i]) {}
  lemma AgentLabelsOk() ensures forall i :: 0 <= i < |AgentLabels| ==> LabelOk("agent:", AgentLabels[i])
  {
    AgentLabelsOkLow();
    AgentLabelsOkHigh();
  }
  lemma AgentLabelsDistinct() ensures DistinctNames(AgentLabels) {}

  lemma ComplexityLabelsOk() ensures forall i :: 0 <= i < |ComplexityLabels| ==> LabelOk("complexity:", ComplexityLabels[i]) {}
  lemma ComplexityLabelsDistinct() ensures DistinctNames(ComplexityLabels) {}

  lemma PhaseLabelsOkLow() ensures forall i :: 0 <= i < 3 ==> LabelOk("phase:", PhaseLabels[i]) {}
  lemma PhaseLabelsOkHigh() ensures forall i :: 3 <= i < 6 ==> LabelOk("phase:", PhaseLabels[i]) {}
  lemma PhaseLabelsOk() ensures forall i :: 0 <= i < |PhaseLabels| ==> LabelOk("phase:", PhaseLabels[i])
  {
    PhaseLabelsOkLow();
    PhaseLabelsOkHigh();
  }
  lemma PhaseLabelsDistinct() ensures DistinctNames(PhaseLabels) {}

  lemma ImpactLabelsOk() ensures forall i :: 0 <= i < |ImpactLabels| ==> LabelOk("impact:", ImpactLabels[i]) {}
  lemma ImpactLabelsDistinct() ensures DistinctNames(ImpactLabels) {}

  lemma CategoryLabelsOkLow() ensures forall i :: 0 <= i < 2 ==> LabelOk("category:", CategoryLabels[i]) {}
  lemma CategoryLabelsOkHigh() ensures forall i :: 2 <= i < 5 ==> LabelOk("category:", CategoryLabels[i]) {}
  lemma CategoryLabelsOk() ensures forall i :: 0 <= i < |CategoryLabels| ==> LabelOk("category:", CategoryLabels[i])
  {
    CategoryLabelsOkLow();
    CategoryLabelsOkHigh();
  }
  lemma CategoryLabelsDistinct() ensures DistinctNames(CategoryLabels) {}

  lemma EffortLabelsOkLow() ensures forall i :: 0 <= i < 3 ==> LabelOk("effort:", EffortLabels[i]) {}
  lemma EffortLabelsOkHigh() ensures forall i :: 3 <= i < 6 ==> LabelOk("effort:", EffortLabels[i]) {}
  lemma EffortLabelsOk() ensures forall i :: 0 <= i < |EffortLabels| ==> LabelOk("effort:", EffortLabels[i])
  {
    EffortLabelsOkLow();
    EffortLabelsOkHigh();
  }
  lemma EffortLabelsDistinct() ensures DistinctNames(EffortLabels) {}

  lemma BlockedLabelsOk() ensures forall i :: 0 <= i < |BlockedLabels| ==> LabelOk("blocked:", BlockedLabels[i]) {}
  lemma BlockedLabelsDistinct() ensures DistinctNames(BlockedLabels) {}

  lemma Distinct1()
    requires DistinctNames(TypeLabels) && PrefixesIn(TypeLabels, {"type:"})
    ensures DistinctNames(TypeLabels + PriorityLabels)
    ensures PrefixesIn(TypeLabels + PriorityLabels, {"type:"} + {"priority:"})
  {
    PriorityLabelsOk();
    PriorityLabelsDistinct();
    GroupPrefixes(PriorityLabels, "priority:");
    DistinctAppend(TypeLabels, {"type:"}, PriorityLabels, "priority:");
  }

  lemma Distinct2()
    requires DistinctNames(TypeLabels + PriorityLabels) && PrefixesIn(TypeLabels + PriorityLabels, {"type:", "priority:"})
    ensures DistinctNames(TypeLabels + PriorityLabels + StateLabels)
    ensures PrefixesIn(TypeLabels + PriorityLabels + StateLabels, {"type:", "priority:"} + {"state:"})
  {
    StateLabelsOk();
    StateLabelsDistinct();
    GroupPrefixes(StateLabels, "state:");
    DistinctAppend(TypeLabels + PriorityLabels, {"type:", "priority:"}, StateLabels, "state:");
  }

  lemma Distinct3()
    requires DistinctNames(TypeLabels + PriorityLabels + StateLabels) && PrefixesIn(TypeLabels + PriorityLabels + StateLabels, {"type:", "priority:", "state:"})
    ensures DistinctNames(TypeLabels + PriorityLabels + StateLabels + AgentLabels)
    ensures PrefixesIn(TypeLabels + PriorityLabels + StateLabels + AgentLabels, {"type:", "priority:", "state:"} + {"agent:"})
  {
    AgentLabelsOk();
    AgentLabelsDistinct();
    GroupPrefixes(AgentLabels, "agent:");
    DistinctAppend(TypeLabels + PriorityLabels + StateLabels, {"type:", "priority:", "state:"}, AgentLabels, "agent:");
  }

  lemma Distinct4()
    requires DistinctNames(TypeLabels + PriorityLabels + StateLabels + AgentLabels) && PrefixesIn(TypeLabels + PriorityLabels + StateLabels + AgentLabels, {"type:", "priority:", "state:", "agent:"})
    ensures DistinctNames(TypeLabels + PriorityLabels + StateLabels + AgentLabels + ComplexityLabels)
    ensures PrefixesIn(TypeLabels + PriorityLabels + StateLabels + AgentLabels + ComplexityLabels, {"type:", "priority:", "state:", "agent:"} + {"complexity:"})
  {
    ComplexityLabelsOk();
    ComplexityLabelsDistinct();
    GroupPrefixes(ComplexityLabels, "complexity:");
    DistinctAppend(TypeLabels + PriorityLabels + StateLabels + AgentLabels, {"type:", "priority:", "state:", "agent:"}, ComplexityLabels, "complexity:");
  }

  lemma Distinct5()
    requires DistinctNames(TypeLabels + PriorityLabels + StateLabels + AgentLabels + ComplexityLabels) && PrefixesIn(TypeLabels + PriorityLabels + StateLabels + AgentLabels + ComplexityLabels, {"type:", "priority:", "state:", "agent:", "complexity:"})
    ensures DistinctNames(TypeLabels + PriorityLabels + StateLabels + AgentLabels + ComplexityLabels + PhaseLabels)
    ensures PrefixesIn(TypeLabels + PriorityLabels + StateLabels + AgentLabels + ComplexityLabels + PhaseLabels, {"type:", "priority:", "state:", "agent:", "complexity:"} + {"phase:"})
  {
    PhaseLabelsOk();
    PhaseLabelsDistinct();
    GroupPrefixes(PhaseLabels, "phase:");
    DistinctAppend(TypeLabels + PriorityLabels + StateLabels + AgentLabels + ComplexityLabels, {"type:", "priority:", "state:", "agent:", "complexity:"}, PhaseLabels, "phase:");
  }

  lemma Distinct6()
    requires DistinctNames(TypeLabels + PriorityLabels + StateLabels + AgentLabels + ComplexityLabels + PhaseLabels) && PrefixesIn(TypeLabels + PriorityLabels + StateLabels + AgentLabels + ComplexityLabels + PhaseLabels, {"type:", "priority:", "state:", "agent:", "complexity:", "phase:"})
    ensures DistinctNames(TypeLabels + PriorityLabels + StateLabels + AgentLabels + ComplexityLabels + PhaseLabels + ImpactLabels)
    ensures PrefixesIn(TypeLabels + PriorityLabels + StateLabels + AgentLabels + ComplexityLabels + PhaseLabels + ImpactLabels, {"type:", "priority:", "state:", "agent:", "complexity:", "phase:"} + {"impact:"})
  {
    ImpactLabelsOk();
    ImpactLabelsDistinct();
    GroupPrefixes(ImpactLabels, "impact:");
    DistinctAppend(TypeLabels + PriorityLabels + StateLabels + AgentLabels + ComplexityLabels + PhaseLabels, {"type:", "priority:", "state:", "agent:", "complexity:", "phase:"}, ImpactLabels, "impact:");
  }

  lemma Distinct7()
    requires DistinctNames(TypeLabels + PriorityLabels + StateLabels + AgentLabels + ComplexityLabels + PhaseLabels + ImpactLabels) && PrefixesIn(TypeLabels + PriorityLabels + StateLabels + AgentLabels + ComplexityLabels + PhaseLabels + ImpactLabels, {"type:", "priority:", "state:", "agent:", "complexity:", "phase:", "impact:"})
    ensures DistinctNames(TypeLabels + PriorityLabels + StateLabels + AgentLabels + ComplexityLabels + PhaseLabels + ImpactLabels + CategoryLabels)
    ensures PrefixesIn(TypeLabels + PriorityLabels + StateLabels + AgentLabels + ComplexityLabels + PhaseLabels + ImpactLabels + CategoryLabels, {"type:", "priority:", "state:", "agent:", "complexity:", "phase:", "impact:"} + {"category:"})
  {
    CategoryLabelsOk();
    CategoryLabelsDistinct();
    GroupPrefixes(CategoryLabels, "category:");
    DistinctAppend(TypeLabels + PriorityLabels + StateLabels + AgentLabels + ComplexityLabels + PhaseLabels + ImpactLabels, {"type:", "priority:", "state:", "agent:", "complexity:", "phase:", "impact:"}, CategoryLabels, "category:");
  }

  lemma Distinct8()
    requires DistinctNames(TypeLabels + PriorityLabels + StateLabels + AgentLabels + ComplexityLabels + PhaseLabels + ImpactLabels + CategoryLabels) && PrefixesIn(TypeLabels + PriorityLabels + StateLabels + AgentLabels + ComplexityLabels + PhaseLabels + ImpactLabels + CategoryLabels, {"type:", "priority:", "state:", "agent:", "complexity:", "phase:", "impact:", "category:"})
    ensures DistinctNames(TypeLabels + PriorityLabels + StateLabels + AgentLabels + ComplexityLabels + PhaseLabels + ImpactLabels + CategoryLabels + EffortLabels)
    ensures PrefixesIn(TypeLabels + PriorityLabels + StateLabels + AgentLabels + ComplexityLabels + PhaseLabels + ImpactLabels + CategoryLabels + EffortLabels, {"type:", "priority:", "state:", "agent:", "complexity:", "phase:", "impact:", "category:"} + {"effort:"})
  {
    EffortLabelsOk();
    EffortLabelsDistinct();
    GroupPrefixes(EffortLabels, "effort:");
    DistinctAppend(TypeLabels + PriorityLabels + StateLabels + AgentLabels + ComplexityLabels + PhaseLabels + ImpactLabels + CategoryLabels, {"type:", "priority:", "state:", "agent:", "complexity:", "phase:", "impact:", "category:"}, EffortLabels, "effort:");
  }

  lemma Distinct9()
    requires DistinctNames(TypeLabels + PriorityLabels + StateLabels + AgentLabels + ComplexityLabels + PhaseLabels + ImpactLabels + CategoryLabels + EffortLabels) && PrefixesIn(TypeLabels + PriorityLabels + StateLabels + AgentLabels + ComplexityLabels + PhaseLabels + ImpactLabels + CategoryLabels + EffortLabels, {"type:", "priority:", "state:", "agent:", "complexity:", "phase:", "impact:", "category:", "effort:"})
    ensures DistinctNames(TypeLabels + PriorityLabels + StateLabels + AgentLabels + ComplexityLabels + PhaseLabels + ImpactLabels + CategoryLabels + EffortLabels + BlockedLabels)
    ensures PrefixesIn(TypeLabels + PriorityLabels + StateLabels + AgentLabels + ComplexityLabels + PhaseLabels + ImpactLabels + CategoryLabels + EffortLabels + BlockedLabels, {"type:", "priority:", "state:", "agent:", "complexity:", "phase:", "impact:", "category:", "effort:"} + {"blocked:"})
  {
    BlockedLabelsOk();
    BlockedLabelsDistinct();
    GroupPrefixes(BlockedLabels, "blocked:");
    DistinctAppend(TypeLabels + PriorityLabels + StateLabels + AgentLabels + ComplexityLabels + PhaseLabels + ImpactLabels + CategoryLabels + EffortLabels, {"type:", "priority:", "state:", "agent:", "complexity:", "phase:", "impact:", "category:", "effort:"}, BlockedLabels, "blocked:");
  }

  lemma TableDistinct()
    ensures DistinctNames(MiyabiLabels)
  {
    TypeLabelsDistinct();
    TypeLabelsOk();
    GroupPrefixes(TypeLabels, "type:");
    Distinct1();
    Distinct2();
    Distinct3();
    Distinct4();
    Distinct5();
    Distinct6();
    Distinct7();
    Distinct8();
    Distinct9();
  }

  /** The first five groups together are well-shaped. */
  lemma ShapedFirstFive()
    ensures Shaped(TypeLabels + PriorityLabels + StateLabels + AgentLabels + ComplexityLabels)
  {
    TypeLabelsOk();
    GroupShaped(TypeLabels, "type:");
    PriorityLabelsOk();
    GroupShaped(PriorityLabels, "priority:");
    StateLabelsOk();
    GroupShaped(StateLabels, "state:");
    AgentLabelsOk();
    GroupShaped(AgentLabels, "agent:");
    ComplexityLabelsOk();
    GroupShaped(ComplexityLabels, "complexity:");
    ShapedAppend(TypeLabels, PriorityLabels);
    ShapedAppend(TypeLabels + PriorityLabels, StateLabels);
    ShapedAppend(TypeLabels + PriorityLabels + StateLabels, AgentLabels);
    ShapedAppend(TypeLabels + PriorityLabels + StateLabels + AgentLabels, ComplexityLabels);
  }

  lemma TableShaped()
    ensures Shaped(MiyabiLabels)
  {
    ShapedFirstFive();
    PhaseLabelsOk();
    GroupShaped(PhaseLabels, "phase:");
    ImpactLabelsOk();
    GroupShaped(ImpactLabels, "impact:");
    CategoryLabelsOk();
    GroupShaped(CategoryLabels, "category:");
    EffortLabelsOk();
    GroupShaped(EffortLabels, "effort:");
    BlockedLabelsOk();
    GroupShaped(BlockedLabels, "blocked:");
    ShapedAppend(TypeLabels + PriorityLabels + StateLabels + AgentLabels + ComplexityLabels, PhaseLabels);
    ShapedAppend(TypeLabels + PriorityLabels + StateLabels + AgentLabels + ComplexityLabels + PhaseLabels, ImpactLabels);
    ShapedAppend(TypeLabels + PriorityLabels + StateLabels + AgentLabels + ComplexityLabels + PhaseLabels + ImpactLabels, CategoryLabels);
    ShapedAppend(TypeLabels + PriorityLabels + StateLabels + AgentLabels + ComplexityLabels + PhaseLabels + ImpactLabels + CategoryLabels, EffortLabels);
    ShapedAppend(TypeLabels + PriorityLabels + StateLabels + AgentLabels + ComplexityLabels + PhaseLabels + ImpactLabels + CategoryLabels + EffortLabels, BlockedLabels);
  }

  /** The table has 53 labels with pairwise distinct names of the form
      `prefix:value` and six-digit hexadecimal colours. */
  lemma TableShape()
    ensures |MiyabiLabels| == 53
    ensures DistinctNames(MiyabiLabels)
    ensures Shaped(MiyabiLabels)
  {
    TableDistinct();
    TableShaped();
  }

  // ---------------------------------------------------------------------
  // setupLabels

  /** `listLabelsForRepo` is asked for one page of this many labels. */
  const PerPage: nat := 100

  /** The error an API call throws: its HTTP status when it has one, and its
      message. */
  datatype ApiError = ApiError(status: Option<int>, message: string)

  /** How one `updateLabel` or `createLabel` call ended. */
  datatype Reply = Done | Failed(error: ApiError)

  datatype Tally = Tally(created: nat, updated: nat, skipped: nat)

  /** The names `setupLabels` sees: those on the first page of the
      repository's labels, listed in the API's order. */
  function Snapshot(listing: seq<string>): (names: set<string>)
    ensures forall n :: n in names <==> exists i :: 0 <= i < |listing| && i < PerPage && listing[i] == n
  {
    var page := if |listing| <= PerPage then listing else listing[..PerPage];
    assert forall i :: 0 <= i < |page| ==> page[i] == listing[i];
    set n | n in page
  }

  /** What happened to one label: an update when its name is in the
      snapshot and a creation otherwise, counted unless it failed, and a 422
      failure counted as skipped. */
  datatype Disposition = Created | Updated | Skipped | Aborted(error: ApiError)

  function DispositionOf(l: Label, existing: set<string>, respond: (Label, bool) -> Reply): (d: Disposition)
    ensures d == Updated ==> l.name in existing
    ensures d == Created ==> l.name !in existing
    ensures d.Aborted? <==> respond(l, l.name in existing).Failed? &&
                             respond(l, l.name in existing).error.status != Some(422)
  {
    var update := l.name in existing;
    match respond(l, update)
    case Done => if update then Updated else Created
    case Failed(e) => if e.status == Some(422) then Skipped else Aborted(e)
  }

  /** The tally after the labels of `ls` in order, or the error of the first
      call that failed with a status other than 422, which ends the loop. */
  function Provision(ls: seq<Label>, existing: set<string>, respond: (Label, bool) -> Reply): (r: Result<Tally, ApiError>)
    ensures r.Ok? ==> r.value.created + r.value.updated + r.value.skipped == |ls|
    decreases |ls|
  {
    if ls == [] then Ok(Tally(0, 0, 0))
    else
      match Provision(ls[..|ls| - 1], existing, respond)
      case Err(e) => Err(e)
      case Ok(t) =>
        match DispositionOf(ls[|ls| - 1], existing, respond)
        case Created => Ok(t.(created := t.created + 1))
        case Updated => Ok(t.(updated := t.updated + 1))
        case Skipped => Ok(t.(skipped := t.skipped + 1))
        case Aborted(e) => Err(e)
  }

  /** What `setupLabels` returns, or the error it throws: the listing call's
      own failure, or the provisioning of the table against its snapshot. */
  function Setup(listing: Result<seq<string>, ApiError>, respond: (Label, bool) -> Reply): Result<Tally, ApiError>
  {
    match listing
    case Err(e) => Err(e)
    case Ok(names) => Provision(MiyabiLabels, Snapshot(names), respond)
  }

  /** Once the loop has thrown, the labels after it change nothing. */
  lemma {:induction false} ProvisionErrSticks(ls: seq<Label>, k: nat, existing: set<string>, respond: (Label, bool) -> Reply)
    requires k <= |ls| && Provision(ls[..k], existing, respond).Err?
    ensures Provision(ls, existing, respond) == Provision(ls[..k], existing, respond)
    decreases |ls|
  {
    if k < |ls| {
      assert ls[..|ls| - 1][..k] == ls[..k];
      ProvisionErrSticks(ls[..|ls| - 1], k, existing, respond);
    } else {
      assert ls[..k] == ls;
    }
  }

  /** The loop of `setupLabels` over the labels of `ls`: one update or
      create call per label, in order. */
  method ProvisionLoop(ls: seq<Label>, existing: set<string>, respond: (Label, bool) -> Reply)
    returns (r: Result<Tally, ApiError>)
    ensures r == Provision(ls, existing, respond)
  {
    var created, updated, skipped := 0, 0, 0;
    for i := 0 to |ls|
      invariant Provision(ls[..i], existing, respond) == Ok(Tally(created, updated, skipped))
    {
      var l := ls[i];
      assert ls[..i + 1][..i] == ls[..i];
      var update := l.name in existing;
      match respond(l, update) {
        case Done =>
          if update {
            updated := updated + 1;
          } else {
            created := created + 1;
          }
        case Failed(e) =>
          if e.status == Some(422) {
            skipped := skipped + 1;
          } else {
            assert Provision(ls[..i + 1], existing, respond) == Err(e);
            ProvisionErrSticks(ls, i + 1, existing, respond);
            return Err(e);
          }
      }
    }
    assert ls[..|ls|] == ls;
    return Ok(Tally(created, updated, skipped));
  }

  /** `setupLabels(owner, repo, octokit)`: `listing` is what the page request
      answered and `respond` how each update or create call ends. */
  method SetupLabels(listing: Result<seq<string>, ApiError>, respond: (Label, bool) -> Reply)
    returns (r: Result<Tally, ApiError>)
    ensures r == Setup(listing, respond)
  {
    if listing.Err? {
      return Err(listing.error);
    }
    var existing := Snapshot(listing.value);
    r := ProvisionLoop(MiyabiLabels, existing, respond);
  }

  /** How many labels of `ls` end with disposition `d`. */
  function CountOf(ls: seq<Label>, existing: set<string>, respond: (Label, bool) -> Reply, d: Disposition): (n: nat)
    ensures n <= |ls|
    decreases |ls|
  {
    if ls == [] then 0
    else CountOf(ls[..|ls| - 1], existing, respond, d) +
         (if DispositionOf(ls[|ls| - 1], existing, respond) == d then 1 else 0)
  }

  /** The first label whose call aborts the loop. */
  function FirstAborted(ls: seq<Label>, existing: set<string>, respond: (Label, bool) -> Reply): (r: Option<nat>)
    ensures r.Some? ==> r.value < |ls| && DispositionOf(ls[r.value], existing, respond).Aborted? &&
                        forall j :: 0 <= j < r.value ==> !DispositionOf(ls[j], existing, respond).Aborted?
    ensures r.None? ==> forall j :: 0 <= j < |ls| ==> !DispositionOf(ls[j], existing, respond).Aborted?
    decreases |ls|
  {
    if ls == [] then None
    else
      var init := ls[..|ls| - 1];
      assert forall j :: 0 <= j < |init| ==> init[j] == ls[j];
      match FirstAborted(init, existing, respond)
      case Some(i) => Some(i)
      case None =>
        if DispositionOf(ls[|ls| - 1], existing, respond).Aborted? then Some(|ls| - 1) else None
  }

  /** The loop's outcome, counted label by label: it fails with the error of
      the first aborting call, and otherwise each counter is the number of
      labels that ended that way. */
  lemma {:induction false} ProvisionCounts(ls: seq<Label>, existing: set<string>, respond: (Label, bool) -> Reply)
    ensures Provision(ls, existing, respond) ==
      match FirstAborted(ls, existing, respond)
      case Some(i) => Err(DispositionOf(ls[i], existing, respond).error)
      case None => Ok(Tally(CountOf(ls, existing, respond, Created),
                            CountOf(ls, existing, respond, Updated),
                            CountOf(ls, existing, respond, Skipped)))
    decreases |ls|
  {
    if ls != [] {
      ProvisionCounts(ls[..|ls| - 1], existing, respond);
    }
  }

  /** `setupLabels` throws exactly when a call fails with a status other than
      422; a 422 never stops it. */
  lemma ProvisionFails(ls: seq<Label>, existing: set<string>, respond: (Label, bool) -> Reply)
    ensures Provision(ls, existing, respond).Err? <==>
      exists i :: 0 <= i < |ls| && respond(ls[i], ls[i].name in existing).Failed? &&
                  respond(ls[i], ls[i].name in existing).error.status != Some(422)
  {
    ProvisionCounts(ls, existing, respond);
    var f := FirstAborted(ls, existing, respond);
    if f.Some? {
      assert DispositionOf(ls[f.value], existing, respond).Aborted?;
    }
  }

  /** How many labels of `ls` have a name in `existing`. */
  function CountIn(ls: seq<Label>, existing: set<string>): (n: nat)
    ensures n <= |ls|
    ensures (forall i :: 0 <= i < |ls| ==> ls[i].name in existing) ==> n == |ls|
    ensures (forall i :: 0 <= i < |ls| ==> ls[i].name !in existing) ==> n == 0
    decreases |ls|
  {
    if ls == [] then 0
    else CountIn(ls[..|ls| - 1], existing) + (if ls[|ls| - 1].name in existing then 1 else 0)
  }

  /** When every call succeeds, the labels already present are updated and
      the rest created, and nothing is skipped. */
  lemma {:induction false} AllCallsSucceed(ls: seq<Label>, existing: set<string>, respond: (Label, bool) -> Reply)
    requires forall i :: 0 <= i < |ls| ==> respond(ls[i], ls[i].name in existing) == Done
    ensures Provision(ls, existing, respond) ==
      Ok(Tally(|ls| - CountIn(ls, existing), CountIn(ls, existing), 0))
    decreases |ls|
  {
    if ls != [] {
      var init := ls[..|ls| - 1];
      assert forall i :: 0 <= i < |init| ==> init[i] == ls[i];
      AllCallsSucceed(init, existing, respond);
    }
  }

  /** On normal return the three counters add up to the 53 labels of the
      table. */
  lemma SetupTotals(listing: Result<seq<string>, ApiError>, respond: (Label, bool) -> Reply)
    ensures var r := Setup(listing, respond);
      r.Ok? ==> r.value.created + r.value.updated + r.value.skipped == 53
  {
    TableShape();
  }

  /** A repository without labels whose calls all succeed gets all 53 labels
      created. */
  lemma FreshRepository(respond: (Label, bool) -> Reply)
    requires forall l :: respond(l, false) == Done
    ensures Setup(Ok([]), respond) == Ok(Tally(53, 0, 0))
  {
    TableShape();
    assert Snapshot([]) == {};
    AllCallsSucceed(MiyabiLabels, {}, respond);
  }

  function Names(ls: seq<Label>): (names: seq<string>)
    ensures |names| == |ls| && forall i :: 0 <= i < |ls| ==> names[i] == ls[i].name
  {
    seq(|ls|, i requires 0 <= i < |ls| => ls[i].name)
  }

  /** Running `setupLabels` again on a repository that lists exactly the
      table's labels updates all 53 and creates none, when every call
      succeeds. */
  lemma RerunUpdatesAll(respond: (Label, bool) -> Reply)
    requires forall l :: respond(l, true) == Done
    ensures Setup(Ok(Names(MiyabiLabels)), respond) == Ok(Tally(0, 53, 0))
  {
    TableShape();
    var names := Names(MiyabiLabels);
    var existing := Snapshot(names);
    forall i | 0 <= i < |MiyabiLabels|
      ensures MiyabiLabels[i].name in existing
    {
      assert names[i] == MiyabiLabels[i].name;
    }
    AllCallsSucceed(MiyabiLabels, existing, respond);
  }
}
