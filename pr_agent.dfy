/** PRAgent: a Conventional Commits title, a branch name with a slug of the
    issue title, and the change summary of a draft pull request. */
module PRAgent {
  import opened Wrappers
  import opened AgentTypes
  import opened Text
  import opened BaseAgent
  import opened Keywords
  import TestAgent

  const CommitRules: seq<Rule<string>> := [
    Rule(["bug", "fix"], "fix"), Rule(["doc"], "docs"), Rule(["test"], "test"),
    Rule(["refactor"], "refactor"), Rule(["perf"], "perf"), Rule(["style"], "style"),
    Rule(["chore"], "chore"), Rule(["ci", "deploy"], "ci")]

  const ScopeRules: seq<Rule<Option<string>>> := [
    Rule(["agent"], Some("agents")), Rule(["cli"], Some("cli")), Rule(["mcp"], Some("mcp")),
    Rule(["core"], Some("core")), Rule(["test"], Some("test"))]

  const CommitTypes: set<string> := {"fix", "docs", "test", "refactor", "perf", "style", "chore", "ci", "feat"}

  /** `inferCommitType`: the first keyword group found in the lowered title
      and body, `feat` when none is. */
  function InferCommitType(issue: Issue): (t: string)
    ensures t in CommitTypes
  {
    Classify(CommitRules, IssueText(issue), "feat")
  }

  /** `inferScope`: first match, `null` when nothing matches. */
  function InferScope(issue: Issue): (s: Option<string>)
    ensures s.Some? ==> s.value in {"agents", "cli", "mcp", "core", "test"}
  {
    Classify(ScopeRules, IssueText(issue), None)
  }

  lemma CommitRulesDistinct()
    ensures DistinctAnswers(CommitRules, "feat")
  {
  }

  lemma ScopeRulesDistinct()
    ensures DistinctAnswers(ScopeRules, None)
  {
  }

  /** The commit type is the answer of rule i exactly when rule i is the
      first whose keyword occurs, and `feat` exactly when none occurs. */
  lemma CommitTypeExactly(issue: Issue, i: nat)
    requires i < |CommitRules|
    ensures InferCommitType(issue) == CommitRules[i].answer <==>
      Fires(CommitRules[i], IssueText(issue)) && forall j :: 0 <= j < i ==> !Fires(CommitRules[j], IssueText(issue))
    ensures InferCommitType(issue) == "feat" <==>
      forall j :: 0 <= j < |CommitRules| ==> !Fires(CommitRules[j], IssueText(issue))
  {
    CommitRulesDistinct();
    DistinctUnique(CommitRules, "feat", i);
    ClassifyExactly(CommitRules, IssueText(issue), "feat", i);
    ClassifyFallback(CommitRules, IssueText(issue), "feat");
  }

  /** Likewise for the scope, with `null` when nothing occurs. */
  lemma ScopeExactly(issue: Issue, i: nat)
    requires i < |ScopeRules|
    ensures InferScope(issue) == ScopeRules[i].answer <==>
      Fires(ScopeRules[i], IssueText(issue)) && forall j :: 0 <= j < i ==> !Fires(ScopeRules[j], IssueText(issue))
    ensures InferScope(issue) == None <==>
      forall j :: 0 <= j < |ScopeRules| ==> !Fires(ScopeRules[j], IssueText(issue))
  {
    ScopeRulesDistinct();
    DistinctUnique(ScopeRules, None, i);
    ClassifyExactly(ScopeRules, IssueText(issue), None, i);
    ClassifyFallback(ScopeRules, IssueText(issue), None);
  }

  /** `generatePRTitle`: `type(scope): title` when a scope was inferred,
      else `type: title`. */
  function GeneratePRTitle(issue: Issue): (r: string)
    ensures InferCommitType(issue) <= r
    ensures |r| >= |issue.title| && r[|r| - |issue.title|..] == issue.title
    ensures InferScope(issue).Some? <==> InferCommitType(issue) + "(" <= r
  {
    var t := InferCommitType(issue);
    var scope := InferScope(issue);
    var r := if scope.Some? then t + "(" + scope.value + "): " + issue.title else t + ": " + issue.title;
    assert r[..|t|] == t;
    assert scope.None? ==> r[|t|] == ':';
    r
  }

  // The slug: lower-case, each run of characters outside [a-z0-9] turned
  // into one '-', one leading and one trailing '-' removed, then the first
  // 40 characters.

  predicate IsSlugChar(c: char)
  {
    'a' <= c <= 'z' || '0' <= c <= '9'
  }

  predicate SlugAlphabet(s: string)
  {
    forall k :: 0 <= k < |s| ==> IsSlugChar(s[k]) || s[k] == '-'
  }

  predicate NoDoubleDash(s: string)
  {
    forall k :: 0 <= k < |s| - 1 ==> !(s[k] == '-' && s[k + 1] == '-')
  }

  /** What follows the run of non-slug characters at the start. */
  function SkipNonSlug(s: string): (r: string)
    ensures |r| <= |s| && r == s[|s| - |r|..]
    ensures r != [] ==> IsSlugChar(r[0])
    ensures forall k :: 0 <= k < |s| - |r| ==> !IsSlugChar(s[k])
  {
    if s == [] || IsSlugChar(s[0]) then s else SkipNonSlug(s[1..])
  }

  /** `.replace(/[^a-z0-9]+/g, '-')`. */
  function ReplaceRuns(s: string): (r: string)
    ensures SlugAlphabet(r) && NoDoubleDash(r)
    ensures r == [] <==> s == []
    ensures r != [] ==> (r[0] == '-' <==> !IsSlugChar(s[0]))
    decreases |s|
  {
    if s == [] then []
    else if IsSlugChar(s[0]) then [s[0]] + ReplaceRuns(s[1..])
    else "-" + ReplaceRuns(SkipNonSlug(s))
  }

  /** `.replace(/^-|-$/g, '')`: a leading '-' and a trailing one (a lone
      '-' is removed once). */
  function TrimDashes(s: string): (r: string)
    ensures var a := if s != [] && s[0] == '-' then 1 else 0;
      var b := if |s| > a && s[|s| - 1] == '-' then |s| - 1 else |s|;
      r == s[a..b]
  {
    var a := if s != [] && s[0] == '-' then 1 else 0;
    var b := if |s| > a && s[|s| - 1] == '-' then |s| - 1 else |s|;
    s[a..b]
  }

  /** The branch slug: lowered, each run of characters outside [a-z0-9]
      made one '-', a leading and a trailing '-' trimmed, and cut to 40
      characters. It uses only [a-z0-9-], never two '-' in a row, does not
      start with '-', and has at most 40 characters. */
  function Slug(title: string): (r: string)
    ensures SlugAlphabet(r) && NoDoubleDash(r) && (r != [] ==> r[0] != '-') && |r| <= 40
  {
    var t := TrimDashes(ReplaceRuns(Lower(title)));
    TrimDashesShape(ReplaceRuns(Lower(title)));
    PrefixShape(t, if |t| < 40 then |t| else 40);
    t[..if |t| < 40 then |t| else 40]
  }

  /** Trimming the dashes keeps the alphabet and single dashes, and takes
      away a leading '-'. */
  lemma TrimDashesShape(s: string)
    requires SlugAlphabet(s) && NoDoubleDash(s)
    ensures var t := TrimDashes(s); SlugAlphabet(t) && NoDoubleDash(t) && (t != [] ==> t[0] != '-')
  {
    var a := if s != [] && s[0] == '-' then 1 else 0;
    var b := if |s| > a && s[|s| - 1] == '-' then |s| - 1 else |s|;
    var t := s[a..b];
    assert forall k :: 0 <= k < |t| ==> t[k] == s[a + k];
    if t != [] && a == 1 {
      assert !(s[0] == '-' && s[1] == '-');
    }
  }

  /** A prefix keeps the shape. */
  lemma PrefixShape(t: string, n: nat)
    requires n <= |t|
    requires SlugAlphabet(t) && NoDoubleDash(t) && (t != [] ==> t[0] != '-')
    ensures SlugAlphabet(t[..n]) && NoDoubleDash(t[..n]) && (n > 0 ==> t[..n][0] != '-')
  {
    assert forall k :: 0 <= k < n ==> t[..n][k] == t[k];
  }

  lemma {:induction false} ReplaceRunsSlugPrefix(a: string, t: string)
    requires forall k :: 0 <= k < |a| ==> IsSlugChar(a[k])
    ensures ReplaceRuns(a + t) == a + ReplaceRuns(t)
    decreases |a|
  {
    if a != [] {
      assert (a + t)[1..] == a[1..] + t;
      ReplaceRunsSlugPrefix(a[1..], t);
    } else {
      assert a + t == t;
    }
  }

  lemma ReplaceRunsSpaceThen(c: char)
    requires IsSlugChar(c)
    ensures ReplaceRuns(" " + [c]) == "-" + [c]
  {
    assert SkipNonSlug(" " + [c]) == [c];
    assert ReplaceRuns([c]) == [c] + ReplaceRuns([]);
  }

  lemma LowerSlugText(a: string, c: char)
    requires forall k :: 0 <= k < |a| ==> IsSlugChar(a[k])
    requires IsSlugChar(c)
    ensures Lower(a + " " + [c]) == a + " " + [c]
  {
    LowerAppend(a + " ", [c]);
    LowerAppend(a, " ");
    LowerSlugId(a);
    LowerSlugId([c]);
    assert Lower(" ") == " ";
    calc {
      Lower(a + " " + [c]);
      Lower(a + " ") + Lower([c]);
      (Lower(a) + Lower(" ")) + Lower([c]);
      (a + " ") + [c];
    }
  }

  /** Lowering leaves slug characters alone. */
  lemma LowerSlugId(a: string)
    requires forall k :: 0 <= k < |a| ==> IsSlugChar(a[k])
    ensures Lower(a) == a
  {
    assert forall k :: 0 <= k < |a| ==> Lower(a)[k] == a[k];
  }

  lemma TrimDashesNone(s: string)
    requires s != [] && s[0] != '-' && s[|s| - 1] != '-'
    ensures TrimDashes(s) == s
  {
  }

  /** Truncation comes after trimming, so a slug can end with '-': 39
      letters, a space and one more letter come out as the letters and '-'. */
  lemma SlugMayEndWithDash(a: string, c: char)
    requires |a| == 39 && forall k :: 0 <= k < |a| ==> IsSlugChar(a[k])
    requires IsSlugChar(c)
    ensures Slug(a + " " + [c]) == a + "-"
  {
    var tail := " " + [c];
    LowerSlugText(a, c);
    assert a + " " + [c] == a + tail;
    ReplaceRunsSpaceThen(c);
    ReplaceRunsSlugPrefix(a, tail);
    ghost var s := a + ("-" + [c]);
    assert ReplaceRuns(Lower(a + " " + [c])) == s;
    assert |s| == 41 && s[0] == a[0] && s[40] == c;
    TrimDashesNone(s);
    assert s[..40] == a + "-";
  }

  predicate NoWhitespace(s: string)
  {
    forall k :: 0 <= k < |s| ==> !IsWhitespace(s[k])
  }

  lemma NoWhitespaceAppend(a: string, b: string)
    requires NoWhitespace(a) && NoWhitespace(b)
    ensures NoWhitespace(a + b)
  {
    assert forall k :: |a| <= k < |a + b| ==> (a + b)[k] == b[k - |a|];
  }

  lemma CommitTypeNoWhitespace(t: string)
    requires t in CommitTypes
    ensures NoWhitespace(t)
  {
  }

  lemma IntToStringNoWhitespace(n: int)
    ensures NoWhitespace(IntToString(n))
  {
    if n < 0 {
      NoWhitespaceAppend("-", NatToString(-n));
    }
  }

  lemma SlugNoWhitespace(title: string)
    ensures NoWhitespace(Slug(title))
  {
    assert SlugAlphabet(Slug(title));
  }

  lemma BranchNoWhitespace(t: string, number: int, slug: string)
    requires NoWhitespace(t) && NoWhitespace(slug)
    ensures NoWhitespace(t + "/issue-" + IntToString(number) + "-" + slug)
  {
    var n := IntToString(number);
    NoWhitespaceAppend(t, "/issue-");
    IntToStringNoWhitespace(number);
    NoWhitespaceAppend(t + "/issue-", n);
    NoWhitespaceAppend(t + "/issue-" + n, "-");
    NoWhitespaceAppend(t + "/issue-" + n + "-", slug);
  }

  lemma SuffixOf(head: string, tail: string)
    ensures (head + tail)[|head + tail| - |tail|..] == tail
  {
  }

  /** `generateBranchName`: `type/issue-<number>-<slug>`, which holds no
      white space. */
  function GenerateBranchName(issue: Issue): (r: string)
    ensures InferCommitType(issue) + "/issue-" <= r
    ensures |r| >= |Slug(issue.title)| && r[|r| - |Slug(issue.title)|..] == Slug(issue.title)
    ensures NoWhitespace(r)
  {
    var t := InferCommitType(issue);
    var slug := Slug(issue.title);
    var head := t + "/issue-" + IntToString(issue.number) + "-";
    CommitTypeNoWhitespace(t);
    SlugNoWhitespace(issue.title);
    BranchNoWhitespace(t, issue.number, slug);
    SuffixOf(head, slug);
    assert (t + "/issue-") <= head;
    head + slug
  }

  predicate IsFeatureFile(f: GeneratedFile)
  {
    Contains(f.path, "features/")
  }

  function FeatureCount(files: seq<GeneratedFile>): (n: nat)
    ensures n <= |files|
    decreases |files|
  {
    if files == [] then 0
    else FeatureCount(files[..|files| - 1]) + (if IsFeatureFile(files[|files| - 1]) then 1 else 0)
  }

  function TestCount(files: seq<GeneratedFile>): (n: nat)
    ensures n <= |files|
    decreases |files|
  {
    if files == [] then 0
    else TestCount(files[..|files| - 1]) + (if TestAgent.IsTestFile(files[|files| - 1]) then 1 else 0)
  }

  /** Files that are neither feature nor test files. */
  function OtherCount(files: seq<GeneratedFile>): (n: nat)
    ensures n <= |files|
    decreases |files|
  {
    if files == [] then 0
    else
      var f := files[|files| - 1];
      OtherCount(files[..|files| - 1]) + (if !IsFeatureFile(f) && !TestAgent.IsTestFile(f) then 1 else 0)
  }

  /** Files that are both feature and test files; they count twice. */
  function BothCount(files: seq<GeneratedFile>): (n: nat)
    ensures n <= |files|
    decreases |files|
  {
    if files == [] then 0
    else
      var f := files[|files| - 1];
      BothCount(files[..|files| - 1]) + (if IsFeatureFile(f) && TestAgent.IsTestFile(f) then 1 else 0)
  }

  /** Every file is in at least one category; only files that are both a
      feature and a test file are counted twice. */
  lemma {:induction false} CategoryCounts(files: seq<GeneratedFile>)
    ensures FeatureCount(files) + TestCount(files) + OtherCount(files) == |files| + BothCount(files)
    decreases |files|
  {
    if files != [] {
      CategoryCounts(files[..|files| - 1]);
    }
  }

  const FeatureLine: string := "- 新機能実装: "
  const TestLine: string := "- テスト追加: "
  const OtherLine: string := "- その他の変更: "

  /** The lines of `generateChangeSummary`, one per non-empty category. */
  function SummaryLines(files: seq<GeneratedFile>): (r: seq<string>)
    ensures |r| <= 3
    ensures files != [] ==> r != []
    ensures files == [] ==> r == []
  {
    CategoryCounts(files);
    (if FeatureCount(files) > 0 then [FeatureLine + NatToString(FeatureCount(files)) + "ファイル"] else []) +
    (if TestCount(files) > 0 then [TestLine + NatToString(TestCount(files)) + "ファイル"] else []) +
    (if OtherCount(files) > 0 then [OtherLine + NatToString(OtherCount(files)) + "ファイル"] else [])
  }

  function ChangeSummary(files: seq<GeneratedFile>): (s: string)
    ensures files == [] <==> s == ""
  {
    var lines := SummaryLines(files);
    JoinNonEmpty(lines, "\n");
    Join(lines, "\n")
  }

  /** With a non-empty separator, a join is empty only for no parts or one
      empty part. */
  lemma {:induction false} JoinNonEmpty(parts: seq<string>, sep: string)
    requires sep != ""
    ensures Join(parts, sep) == "" <==> parts == [] || (|parts| == 1 && parts[0] == "")
  {
    if |parts| > 1 {
      assert Join(parts, sep) == parts[0] + sep + Join(parts[1..], sep);
    }
  }

  /** `generateChangeSummary(codeGen)`: push a line per non-empty category
      and join them with line feeds. */
  method GenerateChangeSummary(files: seq<GeneratedFile>) returns (s: string)
    ensures s == ChangeSummary(files)
  {
    var summary: seq<string> := [];
    var featureCount := FeatureCount(files);
    var testCount := TestCount(files);
    var otherCount := OtherCount(files);
    if featureCount > 0 {
      summary := summary + [FeatureLine + NatToString(featureCount) + "ファイル"];
    }
    if testCount > 0 {
      summary := summary + [TestLine + NatToString(testCount) + "ファイル"];
    }
    if otherCount > 0 {
      summary := summary + [OtherLine + NatToString(otherCount) + "ファイル"];
    }
    assert summary == SummaryLines(files);
    s := Join(summary, "\n");
  }

  datatype PRInput = PRInput(issue: Issue, codeGenResult: CodeGenResult, reviewResult: ReviewResult)

  /** The pull request; its body is represented by the change summary. */
  datatype PRData = PRData(title: string, changeSummary: string, branch: string, isDraft: bool)

  datatype PRMeta = PRMeta(issueNumber: int, filesChanged: nat, qualityScore: int)

  function PROutcome(input: PRInput): Outcome<PRData, PRMeta>
  {
    var data := PRData(GeneratePRTitle(input.issue), ChangeSummary(input.codeGenResult.files),
                       GenerateBranchName(input.issue), true);
    Returned(Partial(Some(data), None,
      Some(PRMeta(input.issue.number, |input.codeGenResult.files|, input.reviewResult.score))))
  }

  /** `run(input)`. */
  method Run(input: PRInput) returns (outcome: Outcome<PRData, PRMeta>)
    ensures outcome == PROutcome(input)
  {
    var summary := GenerateChangeSummary(input.codeGenResult.files);
    var prTitle := GeneratePRTitle(input.issue);
    var branchName := GenerateBranchName(input.issue);
    var prData := PRData(prTitle, summary, branchName, true);
    var meta := PRMeta(input.issue.number, |input.codeGenResult.files|, input.reviewResult.score);
    return Returned(Partial(Some(prData), None, Some(meta)));
  }

  /** The pull request is always a draft; the metadata reports the issue,
      the number of generated files and the review score. */
  lemma PRSpec(input: PRInput)
    ensures var o := PROutcome(input);
      o.Returned? && o.part.error == None && o.part.data.Some? && o.part.data.value.isDraft &&
      o.part.metadata == Some(PRMeta(input.issue.number, |input.codeGenResult.files|, input.reviewResult.score)) &&
      NoWhitespace(o.part.data.value.branch)
  {
  }
}
