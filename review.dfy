/** ReviewAgent: per-file static and security checks, a score out of 100
    and the pass flag. */
module Review {
  import opened Wrappers
  import opened AgentTypes
  import opened Text
  import opened BaseAgent

  const PassThreshold: int := 80

  const AnyMessage: string := "any型の使用を避けてください"
  const ConsoleMessage: string := "console.logは本番環境では削除してください"
  const MaxLinesMessage: string := "ファイルが長すぎます（200行超）"
  const SecretMessage: string := "ハードコードされたシークレットが検出されました"
  const SqlMessage: string := "SQLインジェクションの可能性があります（パラメータ化クエリを使用してください）"

  /** Every issue the checks raise is reported at line 0. */
  function IssueAt(f: GeneratedFile, severity: Severity, message: string, rule: string): ReviewIssue
  {
    ReviewIssue(f.path, 0, severity, message, Some(rule))
  }

  /** All issues name the file and have the given severity and rule. */
  ghost predicate AllOf(r: seq<ReviewIssue>, f: GeneratedFile, severity: Severity)
  {
    forall x :: x in r ==> x.file == f.path && x.line == 0 && x.severity == severity
  }

  function CheckTypeScript(f: GeneratedFile): (r: seq<ReviewIssue>)
    ensures |r| == (if Contains(f.content, ": any") then 1 else 0) + (if Contains(f.content, "console.log") then 1 else 0)
    ensures AllOf(r, f, Warning)
  {
    (if Contains(f.content, ": any") then [IssueAt(f, Warning, AnyMessage, "no-explicit-any")] else []) +
    (if Contains(f.content, "console.log") then [IssueAt(f, Warning, ConsoleMessage, "no-console")] else [])
  }

  /** One warning when the file splits into more than 200 lines, that is
      when it holds at least 200 line feeds. */
  function CheckLinting(f: GeneratedFile): (r: seq<ReviewIssue>)
    ensures |r| <= 1
    ensures |r| == 1 <==> CountChar(f.content, '\n') >= 200
    ensures AllOf(r, f, Warning)
  {
    SplitLength(f.content, '\n');
    if |Split(f.content, '\n')| > 200 then [IssueAt(f, Warning, MaxLinesMessage, "max-lines")] else []
  }

  // The secret patterns `/api[_-]?key\s*=\s*["'][^"']+["']/i` and its
  // `secret`, `password` and `token` variants, matched by hand. The `i`
  // flag folds only ASCII letters (a non-ASCII letter never folds to an
  // ASCII one), so matching the keyword against the ASCII-lowered content
  // is exact.

  datatype SecretPattern = ApiKey | SecretWord | PasswordWord | TokenWord

  const Patterns: seq<SecretPattern> := [ApiKey, SecretWord, PasswordWord, TokenWord]

  predicate IsQuote(c: char)
  {
    c == '"' || c == '\''
  }

  /** The end of the run of `\s` characters starting at k. */
  function SkipSpace(s: string, k: nat): (r: nat)
    requires k <= |s|
    ensures k <= r <= |s|
    ensures forall j :: k <= j < r ==> IsWhitespace(s[j])
    ensures r < |s| ==> !IsWhitespace(s[r])
    decreases |s| - k
  {
    if k < |s| && IsWhitespace(s[k]) then SkipSpace(s, k + 1) else k
  }

  /** `\s*=\s*["'][^"']+["']` matches at e. Neither `=` nor a quote is
      white space, so each `\s*` must take its whole run; `[^"']+` needs a
      non-quote right after the opening quote and some quote after it. */
  predicate AssignsQuoted(s: string, e: nat)
  {
    e <= |s| &&
    var a := SkipSpace(s, e);
    a < |s| && s[a] == '=' &&
    var b := SkipSpace(s, a + 1);
    b + 1 < |s| && IsQuote(s[b]) && !IsQuote(s[b + 1]) &&
    exists j :: b + 1 < j < |s| && IsQuote(s[j])
  }

  /** The pattern matches the (lowered) text s at index i. */
  predicate MatchesAt(p: SecretPattern, s: string, i: nat)
  {
    match p
    case ApiKey =>
      OccursAt(s, "api", i) &&
      ((i + 3 < |s| && (s[i + 3] == '_' || s[i + 3] == '-') && OccursAt(s, "key", i + 4) && AssignsQuoted(s, i + 7)) ||
       (OccursAt(s, "key", i + 3) && AssignsQuoted(s, i + 6)))
    case SecretWord => OccursAt(s, "secret", i) && AssignsQuoted(s, i + 6)
    case PasswordWord => OccursAt(s, "password", i) && AssignsQuoted(s, i + 8)
    case TokenWord => OccursAt(s, "token", i) && AssignsQuoted(s, i + 5)
  }

  /** `pattern.test(content)`. */
  predicate Found(p: SecretPattern, content: string)
  {
    var s := Lower(content);
    exists i :: 0 <= i <= |s| && MatchesAt(p, s, i)
  }

  /** The issues for the patterns in ps, in order. */
  function SecretIssuesFor(ps: seq<SecretPattern>, f: GeneratedFile): (r: seq<ReviewIssue>)
    ensures |r| <= |ps|
    ensures AllOf(r, f, Error)
    decreases |ps|
  {
    if ps == [] then []
    else
      var last := ps[|ps| - 1];
      SecretIssuesFor(ps[..|ps| - 1], f) +
      (if Found(last, f.content) then [IssueAt(f, Error, SecretMessage, "no-hardcoded-secrets")] else [])
  }

  /** What `checkHardcodedSecrets` returns: one error per pattern found. */
  function SecretIssues(f: GeneratedFile): (r: seq<ReviewIssue>)
    ensures |r| <= 4
    ensures AllOf(r, f, Error)
  {
    SecretIssuesFor(Patterns, f)
  }

  lemma {:induction false} SecretIssuesForNone(ps: seq<SecretPattern>, f: GeneratedFile)
    requires forall p :: p in ps ==> !Found(p, f.content)
    ensures SecretIssuesFor(ps, f) == []
    decreases |ps|
  {
    if ps != [] {
      assert forall p :: p in ps[..|ps| - 1] ==> p in ps;
      SecretIssuesForNone(ps[..|ps| - 1], f);
    }
  }

  lemma {:induction false} SecretIssuesForSome(ps: seq<SecretPattern>, f: GeneratedFile, p: SecretPattern)
    requires p in ps && Found(p, f.content)
    ensures SecretIssuesFor(ps, f) != []
    decreases |ps|
  {
    if ps[|ps| - 1] != p {
      InInit(ps, p);
      SecretIssuesForSome(ps[..|ps| - 1], f, p);
    }
  }

  lemma InInit(ps: seq<SecretPattern>, p: SecretPattern)
    requires p in ps && ps[|ps| - 1] != p
    ensures p in ps[..|ps| - 1]
  {
    var k :| 0 <= k < |ps| && ps[k] == p;
    assert ps[..|ps| - 1][k] == p;
  }

  /** `checkHardcodedSecrets(file)`: the loop over the four patterns. */
  method CheckHardcodedSecrets(f: GeneratedFile) returns (issues: seq<ReviewIssue>)
    ensures issues == SecretIssues(f)
  {
    issues := [];
    for k := 0 to |Patterns|
      invariant issues == SecretIssuesFor(Patterns[..k], f)
    {
      assert Patterns[..k + 1][..k] == Patterns[..k];
      if Found(Patterns[k], f.content) {
        issues := issues + [IssueAt(f, Error, SecretMessage, "no-hardcoded-secrets")];
      }
    }
    assert Patterns[..|Patterns|] == Patterns;
  }

  /** Without an `=` in the file no secret pattern can match. */
  lemma NoAssignmentNoSecret(f: GeneratedFile)
    requires '=' !in f.content
    ensures SecretIssues(f) == []
  {
    var s := Lower(f.content);
    forall k | 0 <= k < |s| ensures s[k] != '=' {
      assert s[k] == LowerChar(f.content[k]) && f.content[k] != '=';
    }
    forall p | p in Patterns ensures !Found(p, f.content) {
      forall i | 0 <= i <= |s| ensures !MatchesAt(p, s, i) {
        assert forall e :: !AssignsQuoted(s, e);
      }
    }
    SecretIssuesForNone(Patterns, f);
  }

  /** A quoted password assignment anywhere in the file is an error. */
  lemma PasswordFound(f: GeneratedFile, pre: string, v: string, post: string)
    requires f.content == pre + "password=\"" + v + "\"" + post
    requires v != [] && !IsQuote(v[0])
    ensures SecretIssues(f) != []
  {
    var s := Lower(f.content);
    var i := |pre|;
    PasswordText(f.content, pre, v, post);
    QuotedAt(s, i + 8, i + 10 + |v|);
    assert MatchesAt(PasswordWord, s, i);
    SecretIssuesForSome(Patterns, f, PasswordWord);
  }

  /** Where the pieces of a quoted password assignment sit in the lowered text. */
  lemma PasswordText(c: string, pre: string, v: string, post: string)
    requires c == pre + "password=\"" + v + "\"" + post
    requires v != [] && !IsQuote(v[0])
    ensures var s := Lower(c); var i := |pre|;
      i + 10 + |v| < |s| && OccursAt(s, "password", i) &&
      s[i + 8] == '=' && s[i + 9] == '"' && !IsQuote(s[i + 10]) && IsQuote(s[i + 10 + |v|])
  {
    var s := Lower(c);
    var i := |pre|;
    var lit := "password=\"";
    var rest := v + "\"" + post;
    assert c == pre + (lit + rest);
    assert c[i..i + |lit|] == lit;
    LowerOccurs(c, lit, i);
    assert s[i..i + 8] == s[i..i + 10][..8];
    assert c[i + 10] == v[0];
    assert c[i + 10 + |v|] == '"';
  }

  /** A word with no capitals that occurs in a text occurs at the same place
      in the lowered text. */
  lemma LowerOccurs(c: string, w: string, i: nat)
    requires OccursAt(c, w, i)
    requires forall k :: 0 <= k < |w| ==> LowerChar(w[k]) == w[k]
    ensures OccursAt(Lower(c), w, i)
  {
    var s := Lower(c);
    forall k | 0 <= k < |w|
      ensures s[i..i + |w|][k] == w[k]
    {
      assert s[i + k] == LowerChar(c[i + k]);
      assert c[i + k] == c[i..i + |w|][k];
    }
  }

  /** `=` right at e, a quote after it, a non-quote and a later quote: the
      assignment part of the secret patterns matches at e. */
  lemma QuotedAt(s: string, e: nat, j: nat)
    requires e + 2 < j < |s|
    requires s[e] == '=' && s[e + 1] == '"' && !IsQuote(s[e + 2]) && IsQuote(s[j])
    ensures AssignsQuoted(s, e)
  {
    assert SkipSpace(s, e) == e;
    assert SkipSpace(s, e + 1) == e + 1;
  }

  /** The `/SELECT.*\+/` test: a case-sensitive `SELECT`, then a `+` later
      on the same line (`.` does not match a line terminator). */
  predicate PlusOnLine(s: string, k: nat)
  {
    exists j :: k <= j < |s| && s[j] == '+' && forall m :: k <= m < j ==> !IsLineTerminator(s[m])
  }

  predicate SqlConcatenation(s: string)
  {
    exists i :: 0 <= i <= |s| && OccursAt(s, "SELECT", i) && PlusOnLine(s, i + 6)
  }

  function CheckSQLInjection(f: GeneratedFile): (r: seq<ReviewIssue>)
    ensures |r| <= 1
    ensures |r| == 1 <==> SqlConcatenation(f.content)
    ensures AllOf(r, f, Error)
  {
    if SqlConcatenation(f.content) then [IssueAt(f, Error, SqlMessage, "no-sql-injection")] else []
  }

  /** Without a `+` in the file there is no SQL error. */
  lemma NoPlusNoSql(f: GeneratedFile)
    requires '+' !in f.content
    ensures CheckSQLInjection(f) == []
  {
  }

  /** A `SELECT` followed on the same line by `+` is reported. */
  lemma SqlFound(f: GeneratedFile, pre: string, mid: string, post: string)
    requires f.content == pre + "SELECT" + mid + "+" + post
    requires forall k :: 0 <= k < |mid| ==> !IsLineTerminator(mid[k])
    ensures |CheckSQLInjection(f)| == 1
  {
    var s := f.content;
    var i := |pre|;
    assert s[i..i + 6] == "SELECT";
    var j := i + 6 + |mid|;
    assert s[j] == '+';
    assert forall m :: i + 6 <= m < j ==> s[m] == mid[m - i - 6];
    assert j < |s| && s[j] == '+' && forall m :: i + 6 <= m < j ==> !IsLineTerminator(s[m]);
    assert PlusOnLine(s, i + 6);
    assert OccursAt(s, "SELECT", i) && PlusOnLine(s, i + 6);
  }

  /** The static issues of one file: TypeScript, then lint; the coding
      style check raises nothing. */
  function StaticIssuesOf(f: GeneratedFile): seq<ReviewIssue>
  {
    CheckTypeScript(f) + CheckLinting(f)
  }

  function SecurityIssuesOf(f: GeneratedFile): seq<ReviewIssue>
  {
    SecretIssues(f) + CheckSQLInjection(f)
  }

  function StaticIssues(files: seq<GeneratedFile>): seq<ReviewIssue>
    decreases |files|
  {
    if files == [] then [] else StaticIssues(files[..|files| - 1]) + StaticIssuesOf(files[|files| - 1])
  }

  function SecurityIssues(files: seq<GeneratedFile>): seq<ReviewIssue>
    decreases |files|
  {
    if files == [] then [] else SecurityIssues(files[..|files| - 1]) + SecurityIssuesOf(files[|files| - 1])
  }

  /** `runStaticAnalysis(codeGen)`. */
  method RunStaticAnalysis(files: seq<GeneratedFile>) returns (issues: seq<ReviewIssue>)
    ensures issues == StaticIssues(files)
  {
    issues := [];
    for i := 0 to |files|
      invariant issues == StaticIssues(files[..i])
    {
      assert files[..i + 1][..i] == files[..i];
      issues := issues + CheckTypeScript(files[i]);
      issues := issues + CheckLinting(files[i]);
    }
    assert files[..|files|] == files;
  }

  /** `runSecurityScan(codeGen)`. */
  method RunSecurityScan(files: seq<GeneratedFile>) returns (issues: seq<ReviewIssue>)
    ensures issues == SecurityIssues(files)
  {
    issues := [];
    for i := 0 to |files|
      invariant issues == SecurityIssues(files[..i])
    {
      assert files[..i + 1][..i] == files[..i];
      var secretIssues := CheckHardcodedSecrets(files[i]);
      issues := issues + secretIssues;
      issues := issues + CheckSQLInjection(files[i]);
    }
    assert files[..|files|] == files;
  }

  /** Every static issue is a warning and every security issue an error,
      each naming one of the files. */
  lemma {:induction false} IssueKinds(files: seq<GeneratedFile>)
    ensures forall x :: x in StaticIssues(files) ==> x.severity == Warning && exists f :: f in files && x.file == f.path
    ensures forall x :: x in SecurityIssues(files) ==> x.severity == Error && exists f :: f in files && x.file == f.path
    decreases |files|
  {
    if files != [] {
      var init := files[..|files| - 1];
      var last := files[|files| - 1];
      IssueKinds(init);
      assert forall f :: f in init ==> f in files;
      assert last in files;
    }
  }

  /** The number of issues of one severity (`filter(...).length`). */
  function Count(issues: seq<ReviewIssue>, severity: Severity): (n: nat)
    ensures n <= |issues|
    decreases |issues|
  {
    if issues == [] then 0
    else Count(issues[..|issues| - 1], severity) + (if issues[|issues| - 1].severity == severity then 1 else 0)
  }

  lemma {:induction false} CountAppend(a: seq<ReviewIssue>, b: seq<ReviewIssue>, severity: Severity)
    ensures Count(a + b, severity) == Count(a, severity) + Count(b, severity)
    decreases |b|
  {
    if b != [] {
      var b' := b[..|b| - 1];
      assert (a + b)[..|a + b| - 1] == a + b';
      assert (a + b)[|a + b| - 1] == b[|b| - 1];
      CountAppend(a, b', severity);
      assert Count(a + b, severity) == Count(a + b', severity) + (if b[|b| - 1].severity == severity then 1 else 0);
    } else {
      assert a + b == a;
    }
  }

  lemma {:induction false} CountUniform(a: seq<ReviewIssue>, severity: Severity, other: Severity)
    requires forall x :: x in a ==> x.severity == severity
    ensures Count(a, severity) == |a|
    ensures other != severity ==> Count(a, other) == 0
    decreases |a|
  {
    if a != [] {
      assert forall x :: x in a[..|a| - 1] ==> x in a;
      CountUniform(a[..|a| - 1], severity, other);
    }
  }

  function Clamp(n: int): (r: int)
    ensures 0 <= r <= 100
    ensures 0 <= n <= 100 ==> r == n
    ensures n < 0 ==> r == 0
    ensures n > 100 ==> r == 100
  {
    if n < 0 then 0 else if n > 100 then 100 else n
  }

  /** The score `calculateScore` computes. */
  function Score(issues: seq<ReviewIssue>, fileCount: nat): (s: int)
    ensures 0 <= s <= 100
    ensures fileCount == 0 ==> s == 0
    ensures fileCount > 0 && 10 * Count(issues, Error) + 2 * Count(issues, Warning) <= 100 ==>
      s == 100 - 10 * Count(issues, Error) - 2 * Count(issues, Warning)
    ensures fileCount > 0 && 10 * Count(issues, Error) + 2 * Count(issues, Warning) >= 100 ==> s == 0
  {
    if fileCount == 0 then 0 else Clamp(100 - 10 * Count(issues, Error) - 2 * Count(issues, Warning))
  }

  /** `calculateScore(issues, fileCount)`, with its local `score` updated
      step by step. */
  method CalculateScore(issues: seq<ReviewIssue>, fileCount: nat) returns (score: int)
    ensures score == Score(issues, fileCount)
  {
    score := 100;
    var errorCount := Count(issues, Error);
    score := score - errorCount * 10;
    var warningCount := Count(issues, Warning);
    score := score - warningCount * 2;
    if fileCount == 0 {
      score := 0;
    }
    score := if score < 0 then 0 else if score > 100 then 100 else score;
  }

  /** One more issue never raises the score: an error costs up to 10, a
      warning up to 2, and an info issue nothing. */
  lemma ScoreMonotone(issues: seq<ReviewIssue>, x: ReviewIssue, fileCount: nat)
    ensures Score(issues + [x], fileCount) <= Score(issues, fileCount)
    ensures x.severity == Info ==> Score(issues + [x], fileCount) == Score(issues, fileCount)
    ensures x.severity == Error ==> Score(issues, fileCount) - Score(issues + [x], fileCount) <= 10
    ensures x.severity == Warning ==> Score(issues, fileCount) - Score(issues + [x], fileCount) <= 2
  {
    assert (issues + [x])[..|issues + [x]| - 1] == issues;
  }

  /** The score depends only on which issues there are, not their order. */
  lemma ScoreOrderFree(a: seq<ReviewIssue>, b: seq<ReviewIssue>, fileCount: nat)
    ensures Score(a + b, fileCount) == Score(b + a, fileCount)
  {
    CountAppend(a, b, Error);
    CountAppend(b, a, Error);
    CountAppend(a, b, Warning);
    CountAppend(b, a, Warning);
  }

  function Summary(score: int, issues: seq<ReviewIssue>): (r: string)
    ensures "品質スコア: " <= r
  {
    "品質スコア: " + IntToString(score) + "/100 | エラー: " + NatToString(Count(issues, Error)) +
    "件 | 警告: " + NatToString(Count(issues, Warning)) + "件"
  }

  datatype ReviewMeta = ReviewMeta(totalIssues: nat, errorCount: nat, warningCount: nat)

  function ReviewOf(cg: CodeGenResult): ReviewResult
  {
    var all := StaticIssues(cg.files) + SecurityIssues(cg.files);
    var score := Score(all, |cg.files|);
    ReviewResult(score, score >= PassThreshold, all, Summary(score, all))
  }

  function ReviewOutcome(cg: CodeGenResult): Outcome<ReviewResult, ReviewMeta>
  {
    var r := ReviewOf(cg);
    Returned(Partial(Some(r), None, Some(ReviewMeta(|r.issues|, Count(r.issues, Error), Count(r.issues, Warning)))))
  }

  /** `run(codeGen)`. */
  method Run(cg: CodeGenResult) returns (outcome: Outcome<ReviewResult, ReviewMeta>)
    ensures outcome == ReviewOutcome(cg)
  {
    var issues := RunStaticAnalysis(cg.files);
    var securityIssues := RunSecurityScan(cg.files);
    var allIssues := issues + securityIssues;
    var score := CalculateScore(allIssues, |cg.files|);
    var passed := score >= PassThreshold;
    var result := ReviewResult(score, passed, allIssues, Summary(score, allIssues));
    var meta := ReviewMeta(|allIssues|, Count(allIssues, Error), Count(allIssues, Warning));
    return Returned(Partial(Some(result), None, Some(meta)));
  }

  /** The review result: static issues then security issues, the score in
      0..100, passing iff it reaches 80, with the errors being exactly the
      security findings and the warnings exactly the static ones. */
  lemma ReviewSpec(cg: CodeGenResult)
    ensures var r := ReviewOf(cg);
      r.issues == StaticIssues(cg.files) + SecurityIssues(cg.files) &&
      0 <= r.score <= 100 && (r.passed <==> r.score >= 80) &&
      (cg.files == [] ==> r.score == 0 && !r.passed) &&
      Count(r.issues, Error) == |SecurityIssues(cg.files)| &&
      Count(r.issues, Warning) == |StaticIssues(cg.files)| &&
      Count(r.issues, Info) == 0
  {
    var st := StaticIssues(cg.files);
    var se := SecurityIssues(cg.files);
    IssueKinds(cg.files);
    CountAppend(st, se, Error);
    CountAppend(st, se, Warning);
    CountAppend(st, se, Info);
    CountUniform(st, Warning, Error);
    CountUniform(st, Warning, Info);
    CountUniform(se, Error, Warning);
    CountUniform(se, Error, Info);
  }

  /** The metadata counts agree with the issue list. */
  lemma ReviewMetaSpec(cg: CodeGenResult)
    ensures var o := ReviewOutcome(cg);
      (o.Returned? && o.part.data == Some(ReviewOf(cg)) && o.part.error == None && o.part.metadata.Some? &&
       o.part.metadata.value.totalIssues == |ReviewOf(cg).issues| ==
         o.part.metadata.value.errorCount + o.part.metadata.value.warningCount)
  {
    ReviewSpec(cg);
  }

  /** What one file can cost: at most two TypeScript warnings, one lint
      warning, four secret errors and one SQL error. */
  lemma PerFileBounds(f: GeneratedFile)
    ensures |CheckTypeScript(f)| <= 2 && |CheckLinting(f)| <= 1 && |SecretIssues(f)| <= 4 && |CheckSQLInjection(f)| <= 1
    ensures |StaticIssuesOf(f)| <= 3 && |SecurityIssuesOf(f)| <= 5
  {
  }

  /** A file with no `: any`, no `console.log`, at most 200 lines, no `=`
      and no `+` raises nothing. */
  ghost predicate Clean(f: GeneratedFile)
  {
    !Contains(f.content, ": any") && !Contains(f.content, "console.log") &&
    CountChar(f.content, '\n') < 200 && '=' !in f.content && '+' !in f.content
  }

  lemma {:induction false} CleanNoIssues(files: seq<GeneratedFile>)
    requires forall f :: f in files ==> Clean(f)
    ensures StaticIssues(files) == [] && SecurityIssues(files) == []
    decreases |files|
  {
    if files != [] {
      var last := files[|files| - 1];
      assert last in files;
      assert forall f :: f in files[..|files| - 1] ==> f in files;
      CleanNoIssues(files[..|files| - 1]);
      NoAssignmentNoSecret(last);
      NoPlusNoSql(last);
    }
  }

  /** A non-empty set of clean files scores 100 and passes. */
  lemma CleanPasses(cg: CodeGenResult)
    requires cg.files != [] && forall f :: f in cg.files ==> Clean(f)
    ensures ReviewOf(cg).score == 100 && ReviewOf(cg).passed
  {
    CleanNoIssues(cg.files);
  }
}
