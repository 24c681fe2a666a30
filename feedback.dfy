/** ErrorFeedbackLoop: triage of test errors, fix suggestions, and the
    regeneration request whose files are merged over the originals. */
module Feedback {
  import opened Wrappers
  import opened AgentTypes
  import opened Text
  import opened BaseAgent
  import OrderedMaps

  datatype ErrorPriority = Critical | High | Moderate | Low

  datatype ErrorFeedback = ErrorFeedback(
    errors: seq<TestError>,
    priority: ErrorPriority,
    fixSuggestion: string,
    affectedFiles: seq<string>)

  predicate IsCritical(e: TestError)
  {
    e.kind == Runtime || e.kind == Assertion
  }

  /** `critical` if some error is a runtime or assertion error, else `high`
      if some is a console error, else `medium`. The error kind is a closed
      three-way union, so `medium` means there is no error at all, and `low`
      never comes out. */
  function PriorityOf(errors: seq<TestError>): (p: ErrorPriority)
    ensures p == Critical <==> exists e :: e in errors && IsCritical(e)
    ensures p == High <==> errors != [] && forall e :: e in errors ==> e.kind == Console
    ensures p == Moderate <==> errors == []
    ensures p != Low
  {
    if exists e :: e in errors && IsCritical(e) then Critical
    else if exists e :: e in errors && e.kind == Console then High
    else
      assert errors != [] ==> errors[0] in errors;
      Moderate
  }

  /** The `file` of each error that has a non-empty one, in order. */
  function TruthyFiles(errors: seq<TestError>): (r: seq<string>)
    ensures forall x :: x in r <==> exists e :: e in errors && e.file == Some(x) && x != ""
    decreases |errors|
  {
    if errors == [] then []
    else
      var init := errors[..|errors| - 1];
      var e := errors[|errors| - 1];
      assert forall x :: x in errors <==> x in init || x == e;
      TruthyFiles(init) + (if e.file.Some? && e.file.value != "" then [e.file.value] else [])
  }

  /** `[...new Set(errors.filter(e => e.file).map(e => e.file!))]`: each
      non-empty file once, in order of first occurrence. */
  function AffectedFiles(errors: seq<TestError>): (r: seq<string>)
    ensures forall x :: x in r <==> exists e :: e in errors && e.file == Some(x) && x != ""
    ensures forall i, j :: 0 <= i < j < |r| ==> r[i] != r[j]
  {
    Dedup(TruthyFiles(errors))
  }

  // The variable name in `/'?(\w+)'? is not defined/`, matched by hand.
  // At a start p the optional quote is taken when present; `\w+` must then
  // be the whole word run, since a word character is neither a quote nor
  // the space that begins " is not defined".

  const NotDefined: string := " is not defined"

  predicate IsWordChar(c: char)
  {
    'a' <= c <= 'z' || 'A' <= c <= 'Z' || '0' <= c <= '9' || c == '_'
  }

  function WordEnd(s: string, k: nat): (r: nat)
    requires k <= |s|
    ensures k <= r <= |s|
    ensures forall j :: k <= j < r ==> IsWordChar(s[j])
    ensures r < |s| ==> !IsWordChar(s[r])
    decreases |s| - k
  {
    if k < |s| && IsWordChar(s[k]) then WordEnd(s, k + 1) else k
  }

  function NameStart(s: string, p: nat): (q: nat)
    requires p < |s|
    ensures q <= |s|
  {
    if s[p] == '\'' then p + 1 else p
  }

  /** The regular expression matches starting at p. */
  predicate NameMatchAt(s: string, p: nat)
  {
    p < |s| &&
    var q := NameStart(s, p);
    var e := WordEnd(s, q);
    e > q && ((e < |s| && s[e] == '\'' && OccursAt(s, NotDefined, e + 1)) || OccursAt(s, NotDefined, e))
  }

  /** The leftmost start at or after p where the expression matches. */
  function FirstNameMatch(s: string, p: nat): (r: Option<nat>)
    ensures r.Some? ==> (p <= r.value < |s| && NameMatchAt(s, r.value) &&
                         forall j :: p <= j < r.value ==> !NameMatchAt(s, j))
    ensures r.None? ==> forall j :: p <= j < |s| ==> !NameMatchAt(s, j)
    decreases |s| - p
  {
    if p >= |s| then None
    else if NameMatchAt(s, p) then Some(p)
    else FirstNameMatch(s, p + 1)
  }

  /** `message.match(...)?.[1]`. */
  function VarName(m: string): Option<string>
  {
    match FirstNameMatch(m, 0)
    case None => None
    case Some(p) => Some(m[NameStart(m, p)..WordEnd(m, NameStart(m, p))])
  }

  /** A captured name is a non-empty word that the message shows right
      before " is not defined", possibly with a closing quote between. */
  lemma VarNameSound(m: string)
    requires VarName(m).Some?
    ensures var v := VarName(m).value;
      v != [] && (forall k :: 0 <= k < |v| ==> IsWordChar(v[k])) &&
      (Contains(m, v + NotDefined) || Contains(m, v + "'" + NotDefined))
  {
    var p := FirstNameMatch(m, 0).value;
    var q := NameStart(m, p);
    var e := WordEnd(m, q);
    assert NameMatchAt(m, p);
    CapturedShape(m, q, e);
  }

  /** A word m[q..e] right before " is not defined", possibly with a quote
      between. */
  lemma CapturedShape(m: string, q: nat, e: nat)
    requires q < e <= |m| && forall j :: q <= j < e ==> IsWordChar(m[j])
    requires (e < |m| && m[e] == '\'' && OccursAt(m, NotDefined, e + 1)) || OccursAt(m, NotDefined, e)
    ensures var v := m[q..e];
      v != [] && (forall k :: 0 <= k < |v| ==> IsWordChar(v[k])) &&
      (Contains(m, v + NotDefined) || Contains(m, v + "'" + NotDefined))
  {
    if e < |m| && m[e] == '\'' && OccursAt(m, NotDefined, e + 1) {
      assert OccursAt(m, "'" + NotDefined, e) by {
        assert m[e..e + 1 + |NotDefined|] == [m[e]] + m[e + 1..e + 1 + |NotDefined|];
      }
      FollowedBy(m, q, e, "'" + NotDefined);
      assert m[q..e] + "'" + NotDefined == m[q..e] + ("'" + NotDefined);
    } else {
      FollowedBy(m, q, e, NotDefined);
    }
  }

  /** The piece m[q..e] followed by what occurs at e occurs in m. */
  lemma FollowedBy(m: string, q: nat, e: nat, tail: string)
    requires q <= e && OccursAt(m, tail, e)
    ensures Contains(m, m[q..e] + tail)
  {
    assert m[q..e + |tail|] == m[q..e] + tail;
    assert OccursAt(m, m[q..e] + tail, q);
    ContainsAt(m, m[q..e] + tail);
  }

  /** When a word character comes right before " is not defined", a name
      is captured. */
  lemma VarNameComplete(m: string, k: nat)
    requires 0 < k && OccursAt(m, NotDefined, k) && IsWordChar(m[k - 1])
    ensures VarName(m).Some?
  {
    assert WordEnd(m, k - 1) == k;
    assert NameMatchAt(m, k - 1);
  }

  const NullCheckText: string :=
    "Nullチェック不足です。以下の対策を実装してください:\n- Optional chaining: obj?.property\n- Null check: if (obj && obj.property)\n- デフォルト値: const value = obj?.property ?? 'default'"

  const NotFunctionText: string :=
    "関数呼び出しエラーです。以下を確認してください:\n- 型の確認: 変数が実際に関数かどうか\n- インポート: 正しい関数をインポートしているか\n- this binding: アロー関数またはbindを使用"

  /** The undefined-variable advice for a name (`undefined` when none was captured). */
  function UndefinedText(name: Option<string>): string
  {
    var v := name.GetOr("undefined");
    "変数 '" + v + "' が未定義です。以下を確認してください:\n- インポート漏れ: import " + v +
    " from '...'\n- スコープ外参照: " + v + "が定義されているスコープを確認\n- タイポ: 変数名のスペルミス"
  }

  function GenericConsoleText(message: string): (r: string)
    ensures Contains(r, message)
  {
    var head := "コンソールエラー: ";
    var r := head + message + "\n修正が必要です。";
    assert r[|head|..|head| + |message|] == message;
    assert OccursAt(r, message, |head|);
    ContainsAt(r, message);
    r
  }

  predicate ReadsNull(message: string)
  {
    Contains(message, "Cannot read property") || Contains(message, "Cannot read properties")
  }

  /** `suggestConsoleErrorFix`: the first pattern the message contains
      decides the advice. */
  function ConsoleSuggestion(message: string): (r: string)
    ensures Contains(message, "is not defined") ==> r == UndefinedText(VarName(message))
    ensures (!Contains(message, "is not defined") && ReadsNull(message)) ==> r == NullCheckText
    ensures (!Contains(message, "is not defined") && !ReadsNull(message) &&
             Contains(message, "is not a function")) ==> r == NotFunctionText
    ensures (!Contains(message, "is not defined") && !ReadsNull(message) &&
             !Contains(message, "is not a function")) ==> Contains(r, message)
  {
    if Contains(message, "is not defined") then UndefinedText(VarName(message))
    else if ReadsNull(message) then NullCheckText
    else if Contains(message, "is not a function") then NotFunctionText
    else GenericConsoleText(message)
  }

  /** `${x || '不明'}` for the file and the line. */
  function FileText(file: Option<string>): string
  {
    if file.Some? && file.value != "" then file.value else "不明"
  }

  function LineText(line: Option<int>): string
  {
    if line.Some? && line.value != 0 then IntToString(line.value) else "不明"
  }

  function RuntimeSuggestion(e: TestError): (r: string)
    ensures Contains(r, e.message)
  {
    var head := "ランタイムエラー: ";
    var r := head + e.message + "\nファイル: " + FileText(e.file) + "\n行: " + LineText(e.line) +
      "\n\n以下を確認してください:\n- try-catchでエラーハンドリング\n- エラー発生箇所の特定と修正\n- テストケースの追加";
    assert r[|head|..|head| + |e.message|] == e.message;
    assert OccursAt(r, e.message, |head|);
    ContainsAt(r, e.message);
    r
  }

  function AssertionSuggestion(e: TestError): (r: string)
    ensures Contains(r, e.message)
  {
    var head := "テストアサーションエラー: ";
    var r := head + e.message +
      "\n\n以下を確認してください:\n- 期待値と実際の値の確認\n- テストロジックの見直し\n- 実装コードの修正";
    assert r[|head|..|head| + |e.message|] == e.message;
    assert OccursAt(r, e.message, |head|);
    ContainsAt(r, e.message);
    r
  }

  /** The advice for one error, by its kind. */
  function Suggestion(e: TestError): string
  {
    match e.kind
    case Console => ConsoleSuggestion(e.message)
    case Runtime => RuntimeSuggestion(e)
    case Assertion => AssertionSuggestion(e)
  }

  /** The advice for a runtime or assertion error quotes its message. */
  lemma SuggestionQuotes(e: TestError)
    requires IsCritical(e)
    ensures Contains(Suggestion(e), e.message)
  {
  }

  /** The suggestions for the errors, one each, in order. */
  function Suggestions(errors: seq<TestError>): (r: seq<string>)
    ensures |r| == |errors|
  {
    if errors == [] then [] else Suggestions(errors[..|errors| - 1]) + [Suggestion(errors[|errors| - 1])]
  }

  lemma {:induction false} SuggestionsAt(errors: seq<TestError>, i: nat)
    requires i < |errors|
    ensures Suggestions(errors)[i] == Suggestion(errors[i])
    decreases |errors|
  {
    if i < |errors| - 1 {
      SuggestionsAt(errors[..|errors| - 1], i);
    }
  }

  /** One suggestion per error, joined by a blank line. */
  function FixSuggestion(errors: seq<TestError>): (r: string)
    ensures errors == [] ==> r == ""
    ensures |errors| == 1 ==> r == Suggestion(errors[0])
  {
    Join(Suggestions(errors), "\n\n")
  }

  /** Another error adds a blank line and its suggestion at the end. */
  lemma FixSuggestionSnoc(errors: seq<TestError>, e: TestError)
    requires errors != []
    ensures FixSuggestion(errors + [e]) == FixSuggestion(errors) + "\n\n" + Suggestion(e)
  {
    assert (errors + [e])[..|errors|] == errors;
    JoinSnoc(Suggestions(errors), Suggestion(e), "\n\n");
  }

  /** `generateFixSuggestion(errors)`: the loop pushing one suggestion per
      error, chosen by `Suggestion`'s switch on the error type. */
  method GenerateFixSuggestion(errors: seq<TestError>) returns (r: string)
    ensures r == FixSuggestion(errors)
  {
    var suggestions: seq<string> := [];
    for i := 0 to |errors|
      invariant suggestions == Suggestions(errors[..i])
    {
      assert errors[..i + 1][..i] == errors[..i];
      suggestions := suggestions + [Suggestion(errors[i])];
    }
    assert errors[..|errors|] == errors;
    r := Join(suggestions, "\n\n");
  }

  function FeedbackOf(errors: seq<TestError>): ErrorFeedback
  {
    ErrorFeedback(errors, PriorityOf(errors), FixSuggestion(errors), AffectedFiles(errors))
  }

  /** `analyzeErrors(errors)`. */
  method AnalyzeErrors(errors: seq<TestError>) returns (fb: ErrorFeedback)
    ensures fb == FeedbackOf(errors)
  {
    var priority := PriorityOf(errors);
    var affectedFiles := AffectedFiles(errors);
    var fixSuggestion := GenerateFixSuggestion(errors);
    fb := ErrorFeedback(errors, priority, fixSuggestion, affectedFiles);
  }

  /** The feedback passes the errors through unchanged. */
  lemma FeedbackKeepsErrors(errors: seq<TestError>)
    ensures FeedbackOf(errors).errors == errors
    ensures FeedbackOf(errors).priority == Critical <==> exists e :: e in errors && IsCritical(e)
  {
  }

  /** CodeGenAgent's `execute` answer: success, data and error. */
  type CodeGenReply = AgentResult<CodeGenResult, ()>

  /** The task handed to CodeGenAgent to fix the errors. */
  function FixTask(fb: ErrorFeedback): (t: Task)
    ensures t.priority == (if fb.priority == Critical then P0Critical else P1High)
    ensures t.kind == Bug && t.status == Implementing && t.dependencies == []
    ensures "以下のエラーを修正してください:\n\n" <= t.description
  {
    Task("auto-fix-task", "エラー自動修正", "以下のエラーを修正してください:\n\n" + fb.fixSuggestion,
         Bug, if fb.priority == Critical then P0Critical else P1High, Implementing, [], None, AgentTypes.Medium)
  }

  function Entries(files: seq<GeneratedFile>): (r: seq<(string, GeneratedFile)>)
    ensures |r| == |files|
    ensures forall i :: 0 <= i < |files| ==> r[i] == (files[i].path, files[i])
  {
    seq(|files|, i requires 0 <= i < |files| => (files[i].path, files[i]))
  }

  function Paths(files: seq<GeneratedFile>): (r: seq<string>)
    ensures |r| == |files|
    ensures forall i :: 0 <= i < |files| ==> r[i] == files[i].path
  {
    seq(|files|, i requires 0 <= i < |files| => files[i].path)
  }

  /** The last file of the list with path p. */
  function LastByPath(files: seq<GeneratedFile>, p: string): Option<GeneratedFile>
  {
    OrderedMaps.LastWith(Entries(files), p)
  }

  function MergedFiles(original: seq<GeneratedFile>, fixed: seq<GeneratedFile>): seq<GeneratedFile>
  {
    OrderedMaps.Values(OrderedMaps.FromEntries(Entries(original) + Entries(fixed)))
  }

  lemma EntriesAppend(a: seq<GeneratedFile>, b: seq<GeneratedFile>)
    ensures Entries(a + b) == Entries(a) + Entries(b)
  {
  }

  lemma PathsAppend(a: seq<GeneratedFile>, b: seq<GeneratedFile>)
    ensures Paths(a + b) == Paths(a) + Paths(b)
  {
  }

  /** Putting one more fixed file is reading one more entry. */
  lemma MergeStep(base: seq<(string, GeneratedFile)>, files: seq<GeneratedFile>, i: nat)
    requires i < |files|
    ensures OrderedMaps.FromEntries(base + Entries(files[..i + 1])) ==
            OrderedMaps.Put(OrderedMaps.FromEntries(base + Entries(files[..i])), files[i].path, files[i])
  {
    var f := files[i];
    assert files[..i + 1] == files[..i] + [f];
    EntriesAppend(files[..i], [f]);
    assert base + Entries(files[..i + 1]) == (base + Entries(files[..i])) + [(f.path, f)];
    OrderedMaps.FromEntriesSnoc(base + Entries(files[..i]), f.path, f);
  }

  /** `mergeCodeGenResults(original, fixed)`: a map from path to file,
      overwritten by each fixed file in turn. */
  method MergeCodeGenResults(original: CodeGenResult, fixed: CodeGenResult) returns (files: seq<GeneratedFile>)
    ensures files == MergedFiles(original.files, fixed.files)
  {
    ghost var base := Entries(original.files);
    var fileMap := OrderedMaps.FromEntries(Entries(original.files));
    assert base + Entries(fixed.files[..0]) == base;
    for i := 0 to |fixed.files|
      invariant fileMap == OrderedMaps.FromEntries(base + Entries(fixed.files[..i]))
    {
      var f := fixed.files[i];
      MergeStep(base, fixed.files, i);
      fileMap := OrderedMaps.Put(fileMap, f.path, f);
    }
    assert fixed.files[..|fixed.files|] == fixed.files;
    files := OrderedMaps.Values(fileMap);
  }

  lemma KeysOfEntries(files: seq<GeneratedFile>)
    ensures OrderedMaps.KeysOf(Entries(files)) == Paths(files)
  {
  }

  /** The file chosen for a path has that path and comes from the list. */
  lemma LastByPathIn(files: seq<GeneratedFile>, p: string)
    requires LastByPath(files, p).Some?
    ensures LastByPath(files, p).value in files && LastByPath(files, p).value.path == p
  {
    OrderedMaps.LastWithIn(Entries(files), p);
    var k :| 0 <= k < |files| && Entries(files)[k] == (p, LastByPath(files, p).value);
  }

  /** The merged paths are the distinct paths of original then fixed. */
  lemma MergedPaths(original: seq<GeneratedFile>, fixed: seq<GeneratedFile>)
    ensures Paths(MergedFiles(original, fixed)) == Dedup(Paths(original) + Paths(fixed))
  {
    var es := Entries(original) + Entries(fixed);
    var r := MergedFiles(original, fixed);
    MergedKeys(original, fixed);
    forall i | 0 <= i < |r| ensures r[i].path == OrderedMaps.FromEntries(es).keys[i] {
      MergedPathAt(original, fixed, i);
    }
  }

  /** The keys of the merged map are the distinct paths of original then fixed. */
  lemma MergedKeys(original: seq<GeneratedFile>, fixed: seq<GeneratedFile>)
    ensures OrderedMaps.FromEntries(Entries(original) + Entries(fixed)).keys == Dedup(Paths(original) + Paths(fixed))
  {
    var es := Entries(original) + Entries(fixed);
    OrderedMaps.FromEntriesSpec(es);
    EntriesAppend(original, fixed);
    KeysOfEntries(original + fixed);
    PathsAppend(original, fixed);
  }

  /** The merged file at position i has the i-th key of the merged map as path. */
  lemma MergedPathAt(original: seq<GeneratedFile>, fixed: seq<GeneratedFile>, i: nat)
    requires i < |MergedFiles(original, fixed)|
    ensures MergedFiles(original, fixed)[i].path == OrderedMaps.FromEntries(Entries(original) + Entries(fixed)).keys[i]
  {
    var es := Entries(original) + Entries(fixed);
    var m := OrderedMaps.FromEntries(es);
    var r := MergedFiles(original, fixed);
    OrderedMaps.FromEntriesSpec(es);
    EntriesAppend(original, fixed);
    KeysOfEntries(original + fixed);
    var k := m.keys[i];
    assert k in m.values;
    assert OrderedMaps.LastWith(es, k) == Some(r[i]);
    LastByPathIn(original + fixed, k);
  }

  /** The merged file at each position is the last one with its path in
      the combined list. */
  lemma MergedPick(original: seq<GeneratedFile>, fixed: seq<GeneratedFile>, i: nat)
    requires i < |MergedFiles(original, fixed)|
    ensures var r := MergedFiles(original, fixed);
      Some(r[i]) == LastByPath(original + fixed, r[i].path)
  {
    var es := Entries(original) + Entries(fixed);
    var m := OrderedMaps.FromEntries(es);
    var r := MergedFiles(original, fixed);
    OrderedMaps.FromEntriesSpec(es);
    EntriesAppend(original, fixed);
    var k := m.keys[i];
    assert k in m.values;
    assert LastByPath(original + fixed, k) == Some(r[i]);
    LastByPathIn(original + fixed, k);
  }

  /** A path that fixed has takes fixed's (last) file; any other keeps the original's. */
  lemma LastByPathAppend(original: seq<GeneratedFile>, fixed: seq<GeneratedFile>, p: string)
    ensures p in Paths(fixed) ==> LastByPath(original + fixed, p) == LastByPath(fixed, p)
    ensures p !in Paths(fixed) ==> LastByPath(original + fixed, p) == LastByPath(original, p)
  {
    EntriesAppend(original, fixed);
    KeysOfEntries(fixed);
    OrderedMaps.LastWithAppend(Entries(original), Entries(fixed), p);
  }

  /** The merge holds each path of original and fixed once, original paths
      first then new fixed ones; a path that fixed has takes fixed's (last)
      file and any other path keeps the original's. */
  lemma MergeSpec(original: seq<GeneratedFile>, fixed: seq<GeneratedFile>)
    ensures var r := MergedFiles(original, fixed);
      Paths(r) == Dedup(Paths(original) + Paths(fixed)) &&
      (forall i :: 0 <= i < |r| && r[i].path in Paths(fixed) ==> Some(r[i]) == LastByPath(fixed, r[i].path)) &&
      (forall i :: 0 <= i < |r| && r[i].path !in Paths(fixed) ==> Some(r[i]) == LastByPath(original, r[i].path))
  {
    MergedPaths(original, fixed);
    var r := MergedFiles(original, fixed);
    forall i | 0 <= i < |r|
      ensures r[i].path in Paths(fixed) ==> Some(r[i]) == LastByPath(fixed, r[i].path)
      ensures r[i].path !in Paths(fixed) ==> Some(r[i]) == LastByPath(original, r[i].path)
    {
      MergedPick(original, fixed, i);
      LastByPathAppend(original, fixed, r[i].path);
    }
  }

  /** `${fixResult.error}` renders a missing error as `undefined`. */
  function ErrorText(error: Option<string>): string
  {
    error.GetOr("undefined")
  }

  /** What `fixErrors` gives back for CodeGenAgent's reply to the fix task:
      it throws unless the reply succeeded with data, and otherwise returns
      the merged files with the fixed result's quality score. */
  function FixOutcome(fb: ErrorFeedback, original: CodeGenResult, reply: CodeGenReply): (r: Result<CodeGenResult, string>)
    ensures r.Err? <==> !reply.success || reply.data.None?
    ensures r.Err? ==> r.error == "自動修正失敗: " + ErrorText(reply.error)
    ensures r.Ok? ==> (reply.data.Some? && r.value.qualityScore == reply.data.value.qualityScore &&
                       r.value.files == MergedFiles(original.files, reply.data.value.files))
  {
    if !reply.success || reply.data.None? then Err("自動修正失敗: " + ErrorText(reply.error))
    else
      var fixed := reply.data.value;
      Ok(CodeGenResult(MergedFiles(original.files, fixed.files),
                       "エラー修正: " + NatToString(|fb.errors|) + "件のエラーに対応", fixed.qualityScore))
  }

  /** `fixErrors(feedback, originalCodeGen)`, with CodeGenAgent's `execute`
      given as a parameter. */
  method FixErrors(fb: ErrorFeedback, original: CodeGenResult, execute: Task -> CodeGenReply)
    returns (r: Result<CodeGenResult, string>)
    ensures r == FixOutcome(fb, original, execute(FixTask(fb)))
  {
    var fixTask := FixTask(fb);
    var fixResult := execute(fixTask);
    if !fixResult.success || fixResult.data.None? {
      return Err("自動修正失敗: " + ErrorText(fixResult.error));
    }
    var fixedCodeGen := fixResult.data.value;
    var mergedFiles := MergeCodeGenResults(original, fixedCodeGen);
    return Ok(CodeGenResult(mergedFiles, "エラー修正: " + NatToString(|fb.errors|) + "件のエラーに対応",
                            fixedCodeGen.qualityScore));
  }
}
