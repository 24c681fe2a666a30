/** IssueAgent: type, priority, complexity and category of an issue, and
    the labels suggested from them. */
module IssueAgent {
  import opened Wrappers
  import opened AgentTypes
  import opened Text
  import opened BaseAgent
  import opened Keywords

  const TypeRules: seq<Rule<string>> := [
    Rule(["bug", "fix", "修正"], "bug"), Rule(["security", "脆弱性"], "security"),
    Rule(["test", "テスト"], "test"), Rule(["doc", "ドキュメント"], "docs"),
    Rule(["refactor", "リファクタ"], "refactor"), Rule(["feature", "機能"], "feature")]

  const TypeNames: set<string> := {"bug", "security", "test", "docs", "refactor", "feature"}

  /** `inferType`; the last rule gives the fallback itself. */
  function InferType(issue: Issue): (t: string)
    ensures t in TypeNames
  {
    Classify(TypeRules, IssueText(issue), "feature")
  }

  /** The type is one of the first five answers exactly when that rule is
      the first to fire, and `feature` exactly when none of them fires. */
  lemma TypeExactly(issue: Issue, i: nat)
    requires i < 5
    ensures InferType(issue) == TypeRules[i].answer <==>
      Fires(TypeRules[i], IssueText(issue)) && forall j :: 0 <= j < i ==> !Fires(TypeRules[j], IssueText(issue))
    ensures InferType(issue) == "feature" <==> forall j :: 0 <= j < 5 ==> !Fires(TypeRules[j], IssueText(issue))
  {
    var text := IssueText(issue);
    var first := TypeRules[..5];
    ClassifyDropLast(TypeRules, text, "feature");
    assert InferType(issue) == Classify(first, text, "feature");
    TypeRulesDistinct();
    DistinctUnique(first, "feature", i);
    ClassifyExactly(first, text, "feature", i);
    ClassifyFallback(first, text, "feature");
    assert first[i] == TypeRules[i];
    assert forall j :: 0 <= j < 5 ==> first[j] == TypeRules[j];
  }

  /** The first five type rules give five different answers, none of them
      the fallback. */
  lemma TypeRulesDistinct()
    ensures DistinctAnswers(TypeRules[..5], "feature")
  {
    var first := TypeRules[..5];
    assert first[0].answer == "bug" && first[1].answer == "security" && first[2].answer == "test";
    assert first[3].answer == "docs" && first[4].answer == "refactor";
  }

  const PriorityRulesAsWritten: seq<Rule<string>> := [
    Rule(["critical", "緊急", "障害"], "P0-Critical"), Rule(["high", "重要", "優先"], "P1-High"),
    Rule(["low", "低優先度"], "P3-Low")]

  /** The priority chain with an explicit rule for `低優先度` ahead of the
      rule for `優先`. */
  const PriorityRules: seq<Rule<string>> := [
    Rule(["critical", "緊急", "障害"], "P0-Critical"), Rule(["低優先度"], "P3-Low"),
    Rule(["high", "重要", "優先"], "P1-High"), Rule(["low", "低優先度"], "P3-Low")]

  const PriorityNames: set<string> := {"P0-Critical", "P1-High", "P2-Medium", "P3-Low"}

  /** `estimatePriority` as written. */
  function EstimatePriorityAsWritten(issue: Issue): (p: string)
    ensures p in PriorityNames
  {
    Classify(PriorityRulesAsWritten, IssueText(issue), "P2-Medium")
  }

  lemma LowWordHoldsHighWord()
    ensures Contains("低優先度", "優先")
  {
    assert OccursAt("低優先度", "優先", 1);
    ContainsAt("低優先度", "優先");
  }

  /** As written, `低優先度` never gives `P3-Low`: it contains `優先`, which
      the `P1-High` rule tests first. */
  lemma LowWordShadowed(issue: Issue)
    requires Contains(IssueText(issue), "低優先度")
    ensures EstimatePriorityAsWritten(issue) in {"P0-Critical", "P1-High"}
  {
    LowWordHoldsHighWord();
    ContainsTrans(IssueText(issue), "低優先度", "優先");
    assert "優先" in PriorityRulesAsWritten[1].keywords;
    assert Fires(PriorityRulesAsWritten[1], IssueText(issue));
  }

  /** The corrected chain: `低優先度` is tested right after the critical
      words. `run` and the labels use the chain as written. */
  function EstimatePriority(issue: Issue): (p: string)
    ensures p in PriorityNames
  {
    Classify(PriorityRules, IssueText(issue), "P2-Medium")
  }

  /** With the correction `低優先度` gives `P3-Low` unless a critical word
      occurs too. */
  lemma LowWordHonoured(issue: Issue)
    requires Contains(IssueText(issue), "低優先度")
    requires !Fires(PriorityRules[0], IssueText(issue))
    ensures EstimatePriority(issue) == "P3-Low"
  {
    assert "低優先度" in PriorityRules[1].keywords;
    FirstFiringIs(PriorityRules, IssueText(issue), 1);
  }

  /** Without `低優先度` the correction changes nothing. */
  lemma PriorityAgrees(issue: Issue)
    requires !Contains(IssueText(issue), "低優先度")
    ensures EstimatePriority(issue) == EstimatePriorityAsWritten(issue)
  {
    var text := IssueText(issue);
    assert !Fires(PriorityRules[1], text);
    ClassifySkipSilent(PriorityRules, 1, text, "P2-Medium");
    assert PriorityRules[..1] + PriorityRules[2..] == PriorityRulesAsWritten;
  }

  const XLargeWords: seq<string> := ["大規模", "フレームワーク", "アーキテクチャ"]
  const LargeWords: seq<string> := ["実装", "統合", "システム"]
  const Checkbox: string := "- [ ]"

  predicate Mentions(text: string, words: seq<string>)
  {
    exists k :: k in words && Contains(text, k)
  }

  /** The unchecked task-list items of the body. */
  function CheckboxCount(body: string): nat
  {
    CountMatches(body, Checkbox)
  }

  const ComplexityNames: set<string> := {"small", "medium", "large", "xlarge"}

  /** `estimateComplexity`: size words, unchecked boxes and the body's
      length in UTF-16 code units. */
  function EstimateComplexity(issue: Issue): (c: string)
    ensures c in ComplexityNames
  {
    var text := IssueText(issue);
    var bodyLength := Utf16Length(issue.body);
    var boxes := CheckboxCount(issue.body);
    if Mentions(text, XLargeWords) || boxes > 10 then "xlarge"
    else if Mentions(text, LargeWords) || boxes > 5 || bodyLength > 1000 then "large"
    else if boxes > 2 || bodyLength > 500 then "medium"
    else "small"
  }

  function ComplexityRank(c: string): nat
  {
    if c == "small" then 0 else if c == "medium" then 1 else if c == "large" then 2 else 3
  }

  lemma MentionsAppend(text: string, extra: string, words: seq<string>)
    requires Mentions(text, words)
    ensures Mentions(text + extra, words)
  {
    var k :| k in words && Contains(text, k);
    ContainsAppend(text, extra, k);
  }

  /** Text appended to the body never lowers the estimated complexity. */
  lemma ComplexityGrows(issue: Issue, extra: string)
    ensures ComplexityRank(EstimateComplexity(issue.(body := issue.body + extra))) >=
            ComplexityRank(EstimateComplexity(issue))
  {
    var longer := issue.(body := issue.body + extra);
    var text := IssueText(issue);
    assert longer.title + " " + longer.body == (issue.title + " " + issue.body) + extra;
    LowerAppend(issue.title + " " + issue.body, extra);
    assert IssueText(longer) == text + Lower(extra);
    if Mentions(text, XLargeWords) {
      MentionsAppend(text, Lower(extra), XLargeWords);
    }
    if Mentions(text, LargeWords) {
      MentionsAppend(text, Lower(extra), LargeWords);
    }
    CountMatchesAppend(issue.body, extra, Checkbox);
    Utf16LengthAppend(issue.body, extra);
  }

  const CategoryRules: seq<Rule<string>> := [
    Rule(["ui", "フロントエンド", "react"], "frontend"), Rule(["api", "バックエンド", "server"], "backend"),
    Rule(["deploy", "infra", "ci/cd"], "infra"), Rule(["security", "セキュリティ"], "security"),
    Rule(["dx", "開発体験", "cli"], "dx")]

  const CategoryNames: set<string> := {"frontend", "backend", "infra", "security", "dx"}

  /** `inferCategory`; `backend` is both the second answer and the fallback. */
  function InferCategory(issue: Issue): (c: string)
    ensures c in CategoryNames
  {
    Classify(CategoryRules, IssueText(issue), "backend")
  }

  /** Every category but `backend` comes out exactly when its rule is the
      first to fire. */
  lemma CategoryExactly(issue: Issue, i: nat)
    requires i < |CategoryRules| && i != 1
    ensures InferCategory(issue) == CategoryRules[i].answer <==>
      Fires(CategoryRules[i], IssueText(issue)) && forall j :: 0 <= j < i ==> !Fires(CategoryRules[j], IssueText(issue))
  {
    assert UniqueAnswer(CategoryRules, "backend", i);
    ClassifyExactly(CategoryRules, IssueText(issue), "backend", i);
  }

  /** `backend` comes out when the front-end rule does not fire and either
      the back-end rule fires or nothing after it does. */
  lemma CategoryBackend(issue: Issue)
    ensures var text := IssueText(issue);
      InferCategory(issue) == "backend" <==>
        !Fires(CategoryRules[0], text) &&
        (Fires(CategoryRules[1], text) || forall j :: 2 <= j < |CategoryRules| ==> !Fires(CategoryRules[j], text))
  {
    var text := IssueText(issue);
    if !Fires(CategoryRules[0], text) && Fires(CategoryRules[1], text) {
      FirstFiringIs(CategoryRules, text, 1);
    }
  }

  /** The five labels `analyzeAndSuggestLabels` adds, in order. */
  function NewLabels(issue: Issue): (r: seq<string>)
    ensures |r| == 5 && r[4] == "phase:planning"
    ensures "type:" <= r[0] && "priority:" <= r[1] && "complexity:" <= r[2] && "category:" <= r[3]
  {
    ["type:" + InferType(issue), "priority:" + EstimatePriorityAsWritten(issue),
     "complexity:" + EstimateComplexity(issue), "category:" + InferCategory(issue), "phase:planning"]
  }

  /** `Array.from(labels)` of the set built from the issue's labels and the
      five additions. */
  function SuggestedLabels(issue: Issue): (r: seq<string>)
    ensures forall l :: l in r <==> l in issue.labels || l in NewLabels(issue)
    ensures forall i, j :: 0 <= i < j < |r| ==> r[i] != r[j]
  {
    Dedup(issue.labels + NewLabels(issue))
  }

  /** The issue's own labels keep their first-occurrence order at the front. */
  lemma SuggestedKeepsOriginal(issue: Issue)
    ensures Dedup(issue.labels) <= SuggestedLabels(issue)
  {
    DedupPrefix(issue.labels, NewLabels(issue));
  }

  lemma DedupFive(xs: seq<string>, l0: string, l1: string, l2: string, l3: string, l4: string)
    ensures Dedup(xs + [l0, l1, l2, l3, l4]) ==
      AddToSet(AddToSet(AddToSet(AddToSet(AddToSet(Dedup(xs), l0), l1), l2), l3), l4)
  {
    var y1 := xs + [l0];
    var y2 := y1 + [l1];
    var y3 := y2 + [l2];
    var y4 := y3 + [l3];
    DedupAppend(xs, l0);
    DedupAppend(y1, l1);
    DedupAppend(y2, l2);
    DedupAppend(y3, l3);
    DedupAppend(y4, l4);
    assert y4 + [l4] == xs + [l0, l1, l2, l3, l4];
  }

  /** `analyzeAndSuggestLabels(issue)`: a set seeded with the issue's labels,
      then five `add` calls. */
  method AnalyzeAndSuggestLabels(issue: Issue) returns (labels: seq<string>)
    ensures labels == SuggestedLabels(issue)
  {
    labels := Dedup(issue.labels);
    var kind := InferType(issue);
    labels := AddToSet(labels, "type:" + kind);
    var priority := EstimatePriorityAsWritten(issue);
    labels := AddToSet(labels, "priority:" + priority);
    var complexity := EstimateComplexity(issue);
    labels := AddToSet(labels, "complexity:" + complexity);
    var category := InferCategory(issue);
    labels := AddToSet(labels, "category:" + category);
    labels := AddToSet(labels, "phase:planning");
    DedupFive(issue.labels, "type:" + kind, "priority:" + priority, "complexity:" + complexity,
              "category:" + category, "phase:planning");
  }

  /** `suggested.filter(l => !original.includes(l))`. */
  function Without(suggested: seq<string>, original: seq<string>): (r: seq<string>)
    ensures forall l :: l in r <==> l in suggested && l !in original
    ensures |r| <= |suggested|
    decreases |suggested|
  {
    if suggested == [] then []
    else
      var init := suggested[..|suggested| - 1];
      var last := suggested[|suggested| - 1];
      assert forall l :: l in suggested <==> l in init || l == last;
      Without(init, original) + (if last in original then [] else [last])
  }

  datatype IssueData = IssueData(suggestedLabels: seq<string>, complexity: string, priority: string)

  datatype IssueMeta = IssueMeta(originalLabels: seq<string>, addedLabels: seq<string>)

  function IssueOutcome(issue: Issue): Outcome<IssueData, IssueMeta>
  {
    var suggested := SuggestedLabels(issue);
    Returned(Partial(Some(IssueData(suggested, EstimateComplexity(issue), EstimatePriorityAsWritten(issue))), None,
                     Some(IssueMeta(issue.labels, Without(suggested, issue.labels)))))
  }

  /** Five labels of the shape `NewLabels` gives hold `priority:P3-Low` only
      when their priority is `P3-Low`. */
  lemma LowLabelOnlyFromLow(n: seq<string>, p: string)
    requires |n| == 5 && n[4] == "phase:planning" && n[1] == "priority:" + p
    requires "type:" <= n[0] && "complexity:" <= n[2] && "category:" <= n[3]
    requires p != "P3-Low"
    ensures "priority:P3-Low" !in n
  {
    assert n[1][9..] == p && "priority:P3-Low"[9..] == "P3-Low";
    assert n[0][4] == ':' && n[2][4] == 'l' && n[3][4] == 'g';
  }

  /** As written, `run` never reports `P3-Low` for an issue that says
      `低優先度`, and neither does its priority label. */
  lemma RunShadowsLowWord(issue: Issue)
    requires Contains(IssueText(issue), "低優先度")
    ensures var d := IssueOutcome(issue).part.data.value;
      d.priority in {"P0-Critical", "P1-High"} && "priority:P3-Low" !in NewLabels(issue) &&
      ("priority:P3-Low" !in issue.labels ==> "priority:P3-Low" !in d.suggestedLabels)
  {
    LowWordShadowed(issue);
    LowLabelOnlyFromLow(NewLabels(issue), EstimatePriorityAsWritten(issue));
  }

  /** `run(issue)`. */
  method Run(issue: Issue) returns (outcome: Outcome<IssueData, IssueMeta>)
    ensures outcome == IssueOutcome(issue)
  {
    var suggestedLabels := AnalyzeAndSuggestLabels(issue);
    var complexity := EstimateComplexity(issue);
    var priority := EstimatePriorityAsWritten(issue);
    var meta := IssueMeta(issue.labels, Without(suggestedLabels, issue.labels));
    return Returned(Partial(Some(IssueData(suggestedLabels, complexity, priority)), None, Some(meta)));
  }

  /** The run never fails; the added labels are exactly the five new ones the
      issue did not already carry, and the complexity and priority reported
      are the ones the labels name. */
  lemma IssueSpec(issue: Issue)
    ensures var o := IssueOutcome(issue);
      o.Returned? && o.part.error == None && o.part.data.Some? && o.part.metadata.Some? &&
      (forall l :: l in o.part.metadata.value.addedLabels <==> l in NewLabels(issue) && l !in issue.labels) &&
      "complexity:" + o.part.data.value.complexity in o.part.data.value.suggestedLabels &&
      "priority:" + o.part.data.value.priority in o.part.data.value.suggestedLabels
  {
    var n := NewLabels(issue);
    assert n[1] in n && n[2] in n;
  }
}
