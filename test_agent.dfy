/** TestAgent: unit-test presence, a coverage estimate from file counts,
    and the fix loop around them. */
module TestAgent {
  import opened Wrappers
  import opened AgentTypes
  import opened Text
  import opened BaseAgent

  const CoverageThreshold: real := 80.0
  const MaxFixIterations: nat := 5

  const NoTestFilesMessage: string := "テストファイルが見つかりません"
  const NoResultMessage: string := "テスト実行失敗"

  predicate IsTestFile(f: GeneratedFile)
  {
    Contains(f.path, ".test.")
  }

  function TestFileCount(files: seq<GeneratedFile>): (n: nat)
    ensures n <= |files|
    decreases |files|
  {
    if files == [] then 0
    else TestFileCount(files[..|files| - 1]) + (if IsTestFile(files[|files| - 1]) then 1 else 0)
  }

  function SourceFileCount(files: seq<GeneratedFile>): (n: nat)
    ensures n <= |files|
    decreases |files|
  {
    if files == [] then 0
    else SourceFileCount(files[..|files| - 1]) + (if IsTestFile(files[|files| - 1]) then 0 else 1)
  }

  lemma {:induction false} CountsPartition(files: seq<GeneratedFile>)
    ensures TestFileCount(files) + SourceFileCount(files) == |files|
    decreases |files|
  {
    if files != [] {
      CountsPartition(files[..|files| - 1]);
    }
  }

  /** Facts about t / s * 100 that the coverage needs. */
  lemma RatioFacts(t: real, s: real)
    requires s > 0.0 && t >= 0.0
    ensures (t / s) * 100.0 >= 0.0
    ensures (t / s) * 100.0 * s == 100.0 * t
    ensures (t / s) * 100.0 < 100.0 <==> t < s
  {
    var q := t / s;
    assert q * s == t;
    assert q >= 0.0;
    assert q * 100.0 * s == 100.0 * (q * s);
    if q < 1.0 {
      assert q * s < 1.0 * s;
    } else {
      assert q * s >= 1.0 * s;
    }
  }

  /** For s > 0, c >= k iff c * s >= k * s. */
  lemma ScaleCompare(c: real, k: real, s: real)
    requires s > 0.0
    ensures c >= k <==> c * s >= k * s
  {
    if c >= k {
      assert (c - k) * s >= 0.0;
    } else {
      assert (k - c) * s > 0.0;
    }
  }

  lemma GateReal(c: real, s: real, t: real)
    requires s > 0.0 && c * s == 100.0 * t
    ensures c >= 80.0 <==> 100.0 * t >= 80.0 * s
  {
    ScaleCompare(c, 80.0, s);
  }

  lemma GrowReal(c: real, c': real, s: real, t: real)
    requires s > 0.0 && c * s == 100.0 * t && c' * s == 100.0 * (t + 1.0)
    ensures c' >= c
  {
    ScaleCompare(c', c, s);
  }

  /** c is tn test files per sn source files as a percentage capped at 100,
      and 0 when there is no source file. */
  predicate Percentage(c: real, tn: nat, sn: nat)
  {
    0.0 <= c <= 100.0 &&
    (sn == 0 ==> c == 0.0) &&
    (sn > 0 ==> (c == 100.0 <==> tn >= sn)) &&
    (sn > 0 && c < 100.0 ==> c * sn as real == 100.0 * tn as real)
  }

  /** `measureCoverage`: test files per source file, as a percentage capped
      at 100, and 0 when there is no source file. */
  function Coverage(files: seq<GeneratedFile>): (c: real)
    ensures Percentage(c, TestFileCount(files), SourceFileCount(files))
  {
    var tests := TestFileCount(files);
    var sources := SourceFileCount(files);
    if sources == 0 then 0.0
    else
      RatioFacts(tests as real, sources as real);
      var c := (tests as real / sources as real) * 100.0;
      var capped := if c < 100.0 then c else 100.0;
      if capped < 0.0 then 0.0 else capped
  }

  /** The coverage gate: at least 80% iff there is a source file and four
      test files for every five source files. */
  lemma CoverageGate(files: seq<GeneratedFile>)
    ensures Coverage(files) >= CoverageThreshold <==>
      SourceFileCount(files) > 0 && 5 * TestFileCount(files) >= 4 * SourceFileCount(files)
  {
    GateCounts(Coverage(files), TestFileCount(files), SourceFileCount(files));
  }

  /** The gate on a percentage of test files per source file. */
  lemma GateCounts(c: real, tn: nat, sn: nat)
    requires Percentage(c, tn, sn)
    ensures c >= CoverageThreshold <==> sn > 0 && 5 * tn >= 4 * sn
  {
    var t, s := tn as real, sn as real;
    if sn > 0 && c < 100.0 {
      GateReal(c, s, t);
      assert 100.0 * t >= 80.0 * s <==> 5 * tn >= 4 * sn;
    }
  }

  /** Another test file, with the source files unchanged, never lowers the coverage. */
  lemma MoreTestsMoreCoverage(files: seq<GeneratedFile>, f: GeneratedFile)
    requires IsTestFile(f)
    ensures Coverage(files + [f]) >= Coverage(files)
  {
    var g := files + [f];
    assert g[..|g| - 1] == files;
    assert TestFileCount(g) == TestFileCount(files) + 1;
    assert SourceFileCount(g) == SourceFileCount(files);
    GrowCounts(Coverage(files), Coverage(g), TestFileCount(files), SourceFileCount(files));
  }

  /** One more test file over the same source files: the figure does not drop. */
  lemma GrowCounts(c: real, c': real, tn: nat, sn: nat)
    requires Percentage(c, tn, sn) && Percentage(c', tn + 1, sn)
    ensures c' >= c
  {
    if sn > 0 && c' < 100.0 {
      assert c < 100.0;
      GrowReal(c, c', sn as real, tn as real);
    }
  }

  /** `runUnitTests`: exactly one assertion error when no path contains
      `.test.`, otherwise none. */
  function UnitErrors(files: seq<GeneratedFile>): (r: seq<TestError>)
    ensures |r| <= 1
    ensures r != [] <==> forall f :: f in files ==> !IsTestFile(f)
    ensures forall e :: e in r ==> e.kind == Assertion && e.file == None && e.line == None
  {
    NoTestFiles(files);
    if TestFileCount(files) == 0 then [TestError(Assertion, NoTestFilesMessage, None, None, None)] else []
  }

  lemma {:induction false} NoTestFiles(files: seq<GeneratedFile>)
    ensures TestFileCount(files) == 0 <==> forall f :: f in files ==> !IsTestFile(f)
    decreases |files|
  {
    if files != [] {
      var init := files[..|files| - 1];
      NoTestFiles(init);
      assert forall f :: f in files <==> f in init || f == files[|files| - 1];
    }
  }

  /** `runE2ETests` and `checkBrowserConsole` report nothing yet. */
  function E2EErrors(cg: CodeGenResult): seq<TestError>
  {
    []
  }

  function BrowserConsoleErrors(cg: CodeGenResult): seq<TestError>
  {
    []
  }

  /** What `runTests` returns. */
  function TestsOf(cg: CodeGenResult): TestResult
  {
    var errors := UnitErrors(cg.files) + E2EErrors(cg) + BrowserConsoleErrors(cg);
    var coverage := Coverage(cg.files);
    TestResult(errors == [] && coverage >= CoverageThreshold, coverage, errors)
  }

  /** `runTests(codeGen)`: unit, end-to-end and console errors pushed in
      that order, then the coverage. */
  method RunTests(cg: CodeGenResult) returns (r: TestResult)
    ensures r == TestsOf(cg)
  {
    var errors: seq<TestError> := [];
    errors := errors + UnitErrors(cg.files);
    errors := errors + E2EErrors(cg);
    errors := errors + BrowserConsoleErrors(cg);
    var coverage := Coverage(cg.files);
    r := TestResult(errors == [] && coverage >= CoverageThreshold, coverage, errors);
  }

  /** The test run passes iff there is a source file and at least four
      test files for every five source files; it fails with exactly the
      missing-test-file error when there are no test files. */
  lemma TestsSpec(cg: CodeGenResult)
    ensures var r := TestsOf(cg);
      (r.passed <==> r.errors == [] && r.coverage >= 80.0) &&
      r.errors == UnitErrors(cg.files) &&
      (r.passed <==> SourceFileCount(cg.files) > 0 && 5 * TestFileCount(cg.files) >= 4 * SourceFileCount(cg.files))
  {
    CoverageGate(cg.files);
    NoTestFiles(cg.files);
    var t := TestFileCount(cg.files);
    if SourceFileCount(cg.files) > 0 && 5 * t >= 4 * SourceFileCount(cg.files) {
      assert t > 0;
    }
  }

  /** `autoFix` does not fix anything yet. */
  function AutoFix(errors: seq<TestError>, cg: CodeGenResult): bool
  {
    false
  }

  datatype TestMeta = TestMeta(iterations: nat, finalCoverage: real, finalErrors: nat)

  /** The number of rounds `run` makes: one when the tests pass or the fix
      fails, otherwise the whole budget (the input is the same each round). */
  function Rounds(r: TestResult, fixed: bool): (n: nat)
    ensures 1 <= n <= MaxFixIterations
    ensures n == 1 <==> (r.errors == [] && r.coverage >= CoverageThreshold) || !fixed
  {
    if (r.errors == [] && r.coverage >= CoverageThreshold) || !fixed then 1 else MaxFixIterations
  }

  function TestOutcome(cg: CodeGenResult, autoFix: (seq<TestError>, CodeGenResult) -> bool): Outcome<TestResult, TestMeta>
  {
    var r := TestsOf(cg);
    Returned(Partial(Some(r), None, Some(TestMeta(Rounds(r, autoFix(r.errors, cg)), r.coverage, |r.errors|))))
  }

  /** `run(codeGen)` with the fixer given as a parameter. */
  method RunWith(cg: CodeGenResult, autoFix: (seq<TestError>, CodeGenResult) -> bool)
    returns (outcome: Outcome<TestResult, TestMeta>)
    ensures outcome == TestOutcome(cg, autoFix)
  {
    var iteration := 0;
    var testResult: Option<TestResult> := None;
    while iteration < MaxFixIterations
      invariant 0 <= iteration <= MaxFixIterations
      invariant iteration == 0 <==> testResult == None
      invariant testResult != None ==> testResult == Some(TestsOf(cg))
      invariant iteration > 0 ==> autoFix(TestsOf(cg).errors, cg) && !(TestsOf(cg).errors == [] && TestsOf(cg).coverage >= CoverageThreshold)
    {
      iteration := iteration + 1;
      var r := RunTests(cg);
      testResult := Some(r);
      if r.errors == [] && r.coverage >= CoverageThreshold {
        break;
      }
      var fixed := autoFix(r.errors, cg);
      if !fixed {
        break;
      }
    }
    if testResult == None {
      return Threw(NoResultMessage);
    }
    var r := testResult.value;
    return Returned(Partial(Some(r), None, Some(TestMeta(iteration, r.coverage, |r.errors|))));
  }

  /** `run(codeGen)`. */
  method Run(cg: CodeGenResult) returns (outcome: Outcome<TestResult, TestMeta>)
    ensures outcome == TestOutcome(cg, AutoFix)
  {
    outcome := RunWith(cg, AutoFix);
  }

  /** Since `autoFix` fails, `run` makes exactly one round and reports the
      single test result. */
  lemma OneRound(cg: CodeGenResult)
    ensures var o := TestOutcome(cg, AutoFix);
      o.Returned? && o.part.data == Some(TestsOf(cg)) && o.part.error == None &&
      o.part.metadata.Some? && o.part.metadata.value.iterations == 1 &&
      o.part.metadata.value.finalErrors == |TestsOf(cg).errors|
  {
  }
}
