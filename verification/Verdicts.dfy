/** Grading: the status of one run, the nested loops over artifacts and tests, the verdict over
    all results. */
module Verdicts {
  import opened Wrappers

  datatype SolutionStatus = OK | WRONG_ANSWER | TIME_LIMIT | VALGRIND_ERRORS | RUNTIME_ERROR | COMPILATION_ERROR
      | CHECK_FAILED | STYLE_CHECK_ERROR

  datatype DetectedError = NoError | ValgrindError(errorsCount: int) | OtherRuntimeError

  /** How a program ended on one test. */
  datatype RunTestArtifact = RunTestArtifact(exitStatus: int, signalKilled: int, timeoutExceed: bool,
      detectedError: DetectedError)

  /** A run, and what the checkers say to its output: "" for a match.  The error stream is not
      always there to be checked. */
  datatype TestRun = TestRun(artifact: RunTestArtifact, checkerMessage: string, stderrMessage: Option<string>)

  /** Something that was built, and its run on each test, from test 1 on. */
  datatype BuildArtifact = BuildArtifact(runtimeName: string, tests: seq<TestRun>)

  datatype TestResult = TestResult(
    exitStatus: int, status: SolutionStatus, killedByTimer: bool, signalKilled: int, valgrindErrors: int,
    testNumber: int, target: string)

  // ---------------------------------------------------------------- one test

  predicate RanWell(artifact: RunTestArtifact) {
    artifact.signalKilled == 0 && artifact.detectedError.NoError? && !artifact.timeoutExceed
  }

  method ToTestResult(artifact: RunTestArtifact) returns (r: TestResult)
    ensures r.status == OK <==> RanWell(artifact)
    ensures r.status == TIME_LIMIT <==> artifact.timeoutExceed
    ensures r.status == VALGRIND_ERRORS <==> artifact.detectedError.ValgrindError? && !artifact.timeoutExceed
    ensures r.status in {OK, TIME_LIMIT, VALGRIND_ERRORS, RUNTIME_ERROR}
    ensures r.exitStatus == artifact.exitStatus && r.signalKilled == artifact.signalKilled
    ensures r.killedByTimer == artifact.timeoutExceed
    ensures artifact.detectedError.ValgrindError? ==> r.valgrindErrors == artifact.detectedError.errorsCount
    ensures !artifact.detectedError.ValgrindError? ==> r.valgrindErrors == 0
    ensures r == RunResult(artifact)
  {
    var status := OK;
    var valgrindErrorsCount := 0;
    if artifact.signalKilled != 0 {
      status := RUNTIME_ERROR;
    }
    if artifact.detectedError.ValgrindError? {
      status := VALGRIND_ERRORS;
      valgrindErrorsCount := artifact.detectedError.errorsCount;
    } else if artifact.detectedError.OtherRuntimeError? {
      status := RUNTIME_ERROR;
    }
    if artifact.timeoutExceed {
      status := TIME_LIMIT;
    }
    r := TestResult(artifact.exitStatus, status, artifact.timeoutExceed, artifact.signalKilled, valgrindErrorsCount,
        0, "");
  }

  function RunResult(artifact: RunTestArtifact): TestResult {
    TestResult(
      artifact.exitStatus,
      if artifact.timeoutExceed then TIME_LIMIT
      else if artifact.detectedError.ValgrindError? then VALGRIND_ERRORS
      else if RanWell(artifact) then OK
      else RUNTIME_ERROR,
      artifact.timeoutExceed, artifact.signalKilled,
      if artifact.detectedError.ValgrindError? then artifact.detectedError.errorsCount else 0,
      0, "")
  }

  predicate Matches(run: TestRun) {
    run.checkerMessage == "" && (run.stderrMessage.Some? ==> run.stderrMessage.value == "")
  }

  /** Not killed, no errors, in time, and nothing for the checkers to say. */
  predicate Passes(run: TestRun) {
    && run.artifact.signalKilled == 0 && run.artifact.detectedError.NoError? && !run.artifact.timeoutExceed
    && run.checkerMessage == "" && (run.stderrMessage.None? || run.stderrMessage.value == "")
  }

  /** The result of a test that is run to its end. */
  function FullResult(artifact: BuildArtifact, test: nat): (r: TestResult)
    requires test < |artifact.tests|
    ensures r.status == OK <==> Passes(artifact.tests[test])
    ensures var ran := artifact.tests[test].artifact;
            && (r.status == TIME_LIMIT <==> ran.timeoutExceed)
            && (r.status == VALGRIND_ERRORS <==> ran.detectedError.ValgrindError? && !ran.timeoutExceed)
            && (r.status == WRONG_ANSWER <==>
                  && !Passes(artifact.tests[test])
                  && ran.signalKilled == 0 && ran.detectedError.NoError? && !ran.timeoutExceed)
            && r.exitStatus == ran.exitStatus
    ensures r.status in {OK, WRONG_ANSWER, TIME_LIMIT, VALGRIND_ERRORS, RUNTIME_ERROR}
    ensures r.testNumber == test + 1 && r.target == artifact.runtimeName
  {
    var run := artifact.tests[test];
    var r := RunResult(run.artifact).(testNumber := test + 1, target := artifact.runtimeName);
    if r.status == OK && !Matches(run) then r.(status := WRONG_ANSWER) else r
  }

  method ProcessCheckAnswer(run: TestRun, testResult: TestResult) returns (r: TestResult)
    ensures r == testResult.(status := if Matches(run) then OK else WRONG_ANSWER)
  {
    r := testResult;
    if run.checkerMessage != "" {
      r := r.(status := WRONG_ANSWER);
    } else {
      r := r.(status := OK);
    }
    if r.status == OK && run.stderrMessage.Some? {
      if run.stderrMessage.value != "" {
        r := r.(status := WRONG_ANSWER);
      }
    }
  }

  // ---------------------------------------------------------------- the loops

  /** The results of the tests of one artifact from test index `from` on, if nothing stopped them;
      `only` 0 means all tests. */
  function TestsFrom(artifact: BuildArtifact, only: nat, from: nat): seq<TestResult>
    requires from <= |artifact.tests|
    decreases |artifact.tests| - from
  {
    if from == |artifact.tests| then []
    else
      (if only > 0 && only != from + 1 then [] else [FullResult(artifact, from)])
      + TestsFrom(artifact, only, from + 1)
  }

  /** All results in the order of artifacts, then tests. */
  function Schedule(artifacts: seq<BuildArtifact>, only: nat): seq<TestResult> {
    if artifacts == [] then [] else TestsFrom(artifacts[0], only, 0) + Schedule(artifacts[1..], only)
  }

  predicate AllPassed(results: seq<TestResult>) { forall r | r in results :: r.status == OK }

  /** The results up to and with the first failure. */
  predicate StopsAtFailure(all: seq<TestResult>, results: seq<TestResult>) {
    && results <= all
    && (forall i | 0 <= i < |results| - 1 :: results[i].status == OK)
    && (|results| < |all| ==> results != [] && results[|results| - 1].status != OK)
  }

  function UpToFailure(all: seq<TestResult>): seq<TestResult> {
    if all == [] then [] else [all[0]] + (if all[0].status == OK then UpToFailure(all[1..]) else [])
  }

  /** There is one place to stop. */
  lemma {:induction false} StopsOnlyThere(all: seq<TestResult>, results: seq<TestResult>)
    ensures StopsAtFailure(all, results) <==> results == UpToFailure(all)
  {
    if all != [] {
      assert all == [all[0]] + all[1..];
      if results != [] {
        StopsOnlyThere(all[1..], results[1..]);
        assert results == [results[0]] + results[1..];
        assert results <= all <==> results[0] == all[0] && results[1..] <= all[1..];
        assert forall i | 0 < i < |results| :: results[i] == results[1..][i - 1];
      }
    }
  }

  // ---------------------------------------------------------------- which tests those are

  /** A test by the indexes of its artifact and of its run. */
  datatype TestAt = TestAt(artifact: nat, test: nat)
  {
    /** It is one of the artifacts' tests, and the only one asked for if one is. */
    predicate Counts(artifacts: seq<BuildArtifact>, only: nat) {
      artifact < |artifacts| && test < |artifacts[artifact].tests| && (only == 0 || test == only - 1)
    }

    function Run(artifacts: seq<BuildArtifact>): TestRun
      requires Counts(artifacts, 0)
    {
      artifacts[artifact].tests[test]
    }

    predicate Before(other: TestAt) {
      artifact < other.artifact || (artifact == other.artifact && test < other.test)
    }
  }

  /** All tests that count, artifact by artifact, and for each from its first test on. */
  ghost predicate IsOrder(artifacts: seq<BuildArtifact>, only: nat, order: seq<TestAt>) {
    && (forall i | 0 <= i < |order| :: order[i].Counts(artifacts, only))
    && (forall i, j | 0 <= i < j < |order| :: order[i].Before(order[j]))
    && (forall x: TestAt | x.Counts(artifacts, only) :: x in order)
  }

  predicate AreResults(artifacts: seq<BuildArtifact>, only: nat, order: seq<TestAt>, results: seq<TestResult>) {
    |results| <= |order| && forall i | 0 <= i < |results| ::
      order[i].Counts(artifacts, only) && results[i] == FullResult(artifacts[order[i].artifact], order[i].test)
  }

  /** The results of the tests in order, up to and with the first that fails. */
  ghost predicate IsGraded(artifacts: seq<BuildArtifact>, only: nat, results: seq<TestResult>) {
    exists order :: IsOrder(artifacts, only, order) && StopsAlong(artifacts, only, order, results)
  }

  predicate StopsAlong(artifacts: seq<BuildArtifact>, only: nat, order: seq<TestAt>, results: seq<TestResult>) {
    && AreResults(artifacts, only, order, results)
    && (forall i | 0 <= i < |results| - 1 :: results[i].status == OK)
    && (|results| < |order| ==> results != [] && results[|results| - 1].status != OK)
  }

  predicate IsFirstFailing(artifacts: seq<BuildArtifact>, only: nat, x: TestAt) {
    && x.Counts(artifacts, only) && !Passes(x.Run(artifacts))
    && forall k, t | 0 <= k < |artifacts| && 0 <= t < |artifacts[k].tests| ::
         TestAt(k, t).Counts(artifacts, only) && TestAt(k, t).Before(x) ==> Passes(artifacts[k].tests[t])
  }

  /** The tests of one artifact, by the indexes of their runs from `from` on. */
  predicate IsRow(artifact: BuildArtifact, only: nat, from: nat, row: seq<nat>, results: seq<TestResult>) {
    && |row| == |results|
    && (forall i | 0 <= i < |row| ::
          && from <= row[i] < |artifact.tests| && (only == 0 || row[i] == only - 1)
          && results[i] == FullResult(artifact, row[i]))
    && (forall i, j | 0 <= i < j < |row| :: row[i] < row[j])
    && (forall t | from <= t < |artifact.tests| && (only == 0 || t == only - 1) :: t in row)
  }

  lemma {:induction false} TestsInOrder(artifact: BuildArtifact, only: nat, from: nat) returns (row: seq<nat>)
    requires from <= |artifact.tests|
    ensures IsRow(artifact, only, from, row, TestsFrom(artifact, only, from))
    decreases |artifact.tests| - from
  {
    row := [];
    if from < |artifact.tests| {
      row := TestsInOrder(artifact, only, from + 1);
      if only == 0 || only == from + 1 {
        row := [from] + row;
      }
    }
  }

  /** The schedule holds the results of exactly those tests, in that order. */
  lemma {:induction false} ScheduleIsOrder(artifacts: seq<BuildArtifact>, only: nat) returns (order: seq<TestAt>)
    ensures IsOrder(artifacts, only, order) && |order| == |Schedule(artifacts, only)|
    ensures AreResults(artifacts, only, order, Schedule(artifacts, only))
  {
    order := [];
    if artifacts != [] {
      var row := TestsInOrder(artifacts[0], only, 0);
      var others := ScheduleIsOrder(artifacts[1..], only);
      var here := seq(|row|, i requires 0 <= i < |row| => TestAt(0, row[i]));
      var behind := seq(|others|, i requires 0 <= i < |others| => TestAt(others[i].artifact + 1, others[i].test));
      RowInFront(artifacts, only, row, TestsFrom(artifacts[0], only, 0), others, here + behind);
      ResultsInFront(artifacts, only, row, TestsFrom(artifacts[0], only, 0), others, Schedule(artifacts[1..], only),
                     here + behind);
      order := here + behind;
    }
  }

  /** `order` is the tests of the first artifact, and then those of the others. */
  predicate IsInFront(row: seq<nat>, others: seq<TestAt>, order: seq<TestAt>) {
    && |order| == |row| + |others|
    && (forall i | 0 <= i < |row| :: order[i] == TestAt(0, row[i]))
    && (forall i | 0 <= i < |others| :: order[|row| + i] == TestAt(others[i].artifact + 1, others[i].test))
  }

  lemma RowInFront(artifacts: seq<BuildArtifact>, only: nat, row: seq<nat>, results: seq<TestResult>,
                   others: seq<TestAt>, order: seq<TestAt>)
    requires artifacts != [] && IsRow(artifacts[0], only, 0, row, results)
    requires IsOrder(artifacts[1..], only, others) && IsInFront(row, others, order)
    ensures IsOrder(artifacts, only, order)
  {
    forall i, j | 0 <= i < j < |order| ensures order[i].Before(order[j]) {
      StaysInOrder(row, others, order, i, j);
    }
    forall i | 0 <= i < |order| ensures order[i].Counts(artifacts, only) {
      if i >= |row| {
        assert order[i] == order[|row| + (i - |row|)] && others[i - |row|].Counts(artifacts[1..], only);
      }
    }
    forall x: TestAt | x.Counts(artifacts, only) ensures x in order {
      IsInOne(artifacts, only, row, results, others, order, x);
    }
  }

  lemma StaysInOrder(row: seq<nat>, others: seq<TestAt>, order: seq<TestAt>, i: nat, j: nat)
    requires IsInFront(row, others, order) && i < j < |order|
    requires forall k, l | 0 <= k < l < |row| :: row[k] < row[l]
    requires forall k, l | 0 <= k < l < |others| :: others[k].Before(others[l])
    ensures order[i].Before(order[j])
  {
    var n := |row|;
    if j < n {
      assert row[i] < row[j];
    } else {
      assert order[j] == order[n + (j - n)] == TestAt(others[j - n].artifact + 1, others[j - n].test);
      if i >= n {
        assert order[i] == order[n + (i - n)] == TestAt(others[i - n].artifact + 1, others[i - n].test);
        assert others[i - n].Before(others[j - n]);
      }
    }
  }

  lemma IsInOne(artifacts: seq<BuildArtifact>, only: nat, row: seq<nat>, results: seq<TestResult>,
                others: seq<TestAt>, order: seq<TestAt>, x: TestAt)
    requires artifacts != [] && IsRow(artifacts[0], only, 0, row, results)
    requires IsOrder(artifacts[1..], only, others) && IsInFront(row, others, order)
    requires x.Counts(artifacts, only)
    ensures x in order
  {
    if x.artifact == 0 {
      assert x.test in row;
      var i :| 0 <= i < |row| && row[i] == x.test;
      assert order[i] == x;
    } else {
      var y := TestAt(x.artifact - 1, x.test);
      assert y.Counts(artifacts[1..], only);
      var i :| 0 <= i < |others| && others[i] == y;
      assert order[|row| + i] == x;
    }
  }

  lemma ResultsInFront(artifacts: seq<BuildArtifact>, only: nat, row: seq<nat>, here: seq<TestResult>,
                       others: seq<TestAt>, rest: seq<TestResult>, order: seq<TestAt>)
    requires artifacts != [] && IsRow(artifacts[0], only, 0, row, here)
    requires AreResults(artifacts[1..], only, others, rest) && |others| == |rest| && IsInFront(row, others, order)
    ensures AreResults(artifacts, only, order, here + rest)
  {
    forall i | 0 <= i < |order|
      ensures order[i].Counts(artifacts, only)
      ensures (here + rest)[i] == FullResult(artifacts[order[i].artifact], order[i].test)
    {
      if i >= |row| {
        assert order[i] == order[|row| + (i - |row|)] && others[i - |row|].Counts(artifacts[1..], only);
      }
    }
  }

  lemma ScheduleIsGraded(artifacts: seq<BuildArtifact>, only: nat, results: seq<TestResult>)
    requires StopsAtFailure(Schedule(artifacts, only), results)
    ensures IsGraded(artifacts, only, results)
  {
    var order := ScheduleIsOrder(artifacts, only);
    assert forall i | 0 <= i < |results| :: results[i] == Schedule(artifacts, only)[i];
  }

  /** Stopping at the first failure loses nothing: the verdict is OK if and only if all tests that
      count pass, and otherwise it is the status of the first that does not, whose result comes last. */
  lemma VerdictIsFirstFailure(artifacts: seq<BuildArtifact>, only: nat, results: seq<TestResult>)
    requires IsGraded(artifacts, only, results)
    ensures AllJudged(results)
    ensures Verdict(results) == OK <==>
              forall x: TestAt | x.Counts(artifacts, only) :: Passes(x.Run(artifacts))
    ensures Verdict(results) != OK ==> exists x :: IsFirstFailing(artifacts, only, x)
    ensures forall x | IsFirstFailing(artifacts, only, x) ::
              && results != [] && results[|results| - 1] == FullResult(artifacts[x.artifact], x.test)
              && Verdict(results) == results[|results| - 1].status
  {
    var order: seq<TestAt> :| IsOrder(artifacts, only, order) && StopsAlong(artifacts, only, order, results);
    VerdictIsWorst(results);
    OkMeansAllPass(artifacts, only, order, results);
    if Verdict(results) != OK {
      LastFailed(results);
      FailedIsFirst(artifacts, only, order, results);
    }
    forall x | IsFirstFailing(artifacts, only, x)
      ensures results != [] && results[|results| - 1] == FullResult(artifacts[x.artifact], x.test)
      ensures Verdict(results) == results[|results| - 1].status
    {
      LastIsFirstFailing(artifacts, only, order, results, x);
      LastDecides(results);
    }
  }

  lemma OkMeansAllPass(artifacts: seq<BuildArtifact>, only: nat, order: seq<TestAt>, results: seq<TestResult>)
    requires IsOrder(artifacts, only, order) && StopsAlong(artifacts, only, order, results)
    ensures AllJudged(results)
    ensures Verdict(results) == OK <==> forall x: TestAt | x.Counts(artifacts, only) :: Passes(x.Run(artifacts))
  {
    VerdictIsWorst(results);
    if Verdict(results) == OK {
      forall x: TestAt | x.Counts(artifacts, only) ensures Passes(x.Run(artifacts)) {
        var i :| 0 <= i < |order| && order[i] == x;
        assert results[|results| - 1] in results && results[i] in results;
      }
    } else {
      var r :| r in results && r.status == Verdict(results);
      var i :| 0 <= i < |results| && results[i] == r;
      assert order[i].Counts(artifacts, only) && !Passes(order[i].Run(artifacts));
    }
  }

  lemma LastDecides(results: seq<TestResult>)
    requires results != [] && AllJudged(results) && forall i | 0 <= i < |results| - 1 :: results[i].status == OK
    ensures Verdict(results) == results[|results| - 1].status
  {
    VerdictIsWorst(results);
    assert results[|results| - 1] in results;
  }

  lemma LastFailed(results: seq<TestResult>)
    requires Verdict(results) != OK && forall i | 0 <= i < |results| - 1 :: results[i].status == OK
    ensures results != [] && results[|results| - 1].status != OK
  {
    VerdictIsWorst(results);
    var r :| r in results && r.status == Verdict(results);
    var i :| 0 <= i < |results| && results[i] == r;
  }

  lemma FailedIsFirst(artifacts: seq<BuildArtifact>, only: nat, order: seq<TestAt>, results: seq<TestResult>)
    requires IsOrder(artifacts, only, order) && StopsAlong(artifacts, only, order, results)
    requires results != [] && results[|results| - 1].status != OK
    ensures IsFirstFailing(artifacts, only, order[|results| - 1])
  {
    var n := |results| - 1;
    forall k, t | 0 <= k < |artifacts| && 0 <= t < |artifacts[k].tests|
               && TestAt(k, t).Counts(artifacts, only) && TestAt(k, t).Before(order[n])
      ensures Passes(artifacts[k].tests[t])
    {
      var i :| 0 <= i < |order| && order[i] == TestAt(k, t);
      assert i > n ==> order[n].Before(order[i]);
      assert i < n && results[i].status == OK;
    }
  }

  lemma LastIsFirstFailing(artifacts: seq<BuildArtifact>, only: nat, order: seq<TestAt>, results: seq<TestResult>,
                           x: TestAt)
    requires IsOrder(artifacts, only, order) && StopsAlong(artifacts, only, order, results)
    requires IsFirstFailing(artifacts, only, x)
    ensures results != [] && results[|results| - 1] == FullResult(artifacts[x.artifact], x.test)
  {
    var i :| 0 <= i < |order| && order[i] == x;
    forall j | 0 <= j < i && j < |results| ensures results[j].status == OK {
      assert order[j].Before(x) && order[j] == TestAt(order[j].artifact, order[j].test);
    }
    assert |results| > i;
    assert results[i] == FullResult(artifacts[x.artifact], x.test) && results[i].status != OK;
  }

  // ---------------------------------------------------------------- the loops, as they run

  method ProcessSolutionArtifacts(buildArtifacts: seq<BuildArtifact>, onlyForTestNumber: nat)
    returns (testResults: seq<TestResult>)
    ensures IsGraded(buildArtifacts, onlyForTestNumber, testResults)
    ensures testResults == UpToFailure(Schedule(buildArtifacts, onlyForTestNumber))
  {
    testResults := [];
    ghost var all := Schedule(buildArtifacts, onlyForTestNumber);
    for i := 0 to |buildArtifacts|
      invariant AllPassed(testResults)
      invariant testResults + Schedule(buildArtifacts[i..], onlyForTestNumber) == all
    {
      ghost var rest := Schedule(buildArtifacts[i + 1..], onlyForTestNumber);
      assert buildArtifacts[i..][1..] == buildArtifacts[i + 1..];
      var failed;
      testResults, failed := ProcessArtifact(buildArtifacts[i], onlyForTestNumber, testResults, all, rest);
      if failed {
        StopsOnlyThere(all, testResults);
        ScheduleIsGraded(buildArtifacts, onlyForTestNumber, testResults);
        return;
      }
    }
    StopsOnlyThere(all, testResults);
    ScheduleIsGraded(buildArtifacts, onlyForTestNumber, testResults);
  }

  /** The loop over the tests of one artifact. */
  method ProcessArtifact(artifact: BuildArtifact, onlyForTestNumber: nat, before: seq<TestResult>,
                         ghost all: seq<TestResult>, ghost rest: seq<TestResult>)
    returns (testResults: seq<TestResult>, failed: bool)
    requires AllPassed(before) && before + (TestsFrom(artifact, onlyForTestNumber, 0) + rest) == all
    ensures failed ==> StopsAtFailure(all, testResults)
    ensures !failed ==> AllPassed(testResults) && testResults + rest == all
  {
    testResults := before;
    failed := false;
    var testNumber := 1;
    while testNumber <= |artifact.tests|
      invariant 1 <= testNumber <= |artifact.tests| + 1
      invariant AllPassed(testResults)
      invariant testResults + (TestsFrom(artifact, onlyForTestNumber, testNumber - 1) + rest) == all
    {
      if onlyForTestNumber > 0 && onlyForTestNumber != testNumber {
        testNumber := testNumber + 1;
        continue;
      }
      var result := ProcessTest(artifact, testNumber);
      failed := result.status != OK;
      ghost var later := TestsFrom(artifact, onlyForTestNumber, testNumber) + rest;
      assert TestsFrom(artifact, onlyForTestNumber, testNumber - 1) + rest == [result] + later;
      assert testResults + ([result] + later) == (testResults + [result]) + later;
      testResults := testResults + [result];
      if failed {
        return;
      }
      testNumber := testNumber + 1;
    }
  }

  method ProcessTest(artifact: BuildArtifact, testNumber: nat) returns (result: TestResult)
    requires 1 <= testNumber <= |artifact.tests|
    ensures result == FullResult(artifact, testNumber - 1)
  {
    var run := artifact.tests[testNumber - 1];
    result := ToTestResult(run.artifact);
    result := result.(testNumber := testNumber, target := artifact.runtimeName);
    if result.status == OK {
      result := ProcessCheckAnswer(run, result);
    }
  }

  function Concat(parts: seq<seq<TestResult>>): seq<TestResult> {
    if parts == [] then [] else Concat(parts[..|parts| - 1]) + parts[|parts| - 1]
  }

  /** Test by test, what its own build gives; a failed build gives nothing. */
  ghost predicate AreGraded(testBuilds: seq<Option<seq<BuildArtifact>>>, parts: seq<seq<TestResult>>) {
    |parts| == |testBuilds| && forall i | 0 <= i < |parts| :: IsPart(testBuilds[i], i + 1, parts[i])
  }

  ghost predicate IsPart(build: Option<seq<BuildArtifact>>, testNumber: nat, part: seq<TestResult>) {
    if build.Some? then IsGraded(build.value, testNumber, part) else part == []
  }

  lemma NothingToGrade(only: nat, results: seq<TestResult>)
    ensures IsGraded([], only, results) ==> results == []
  {
    if IsGraded([], only, results) {
      var order: seq<TestAt> :| IsOrder([], only, order) && StopsAlong([], only, order, results);
    }
  }

  /** With a build per test each test has its own artifacts, None if its build failed. */
  method ProcessTests(testsRequiresBuild: bool, testBuilds: seq<Option<seq<BuildArtifact>>>,
      buildArtifacts: seq<BuildArtifact>)
    returns (result: seq<TestResult>)
    ensures !testsRequiresBuild ==> IsGraded(buildArtifacts, 0, result)
    ensures testsRequiresBuild ==> exists parts :: AreGraded(testBuilds, parts) && result == Concat(parts)
  {
    if !testsRequiresBuild {
      result := ProcessSolutionArtifacts(buildArtifacts, 0);
      return;
    }
    result := [];
    ghost var parts := [];
    for i := 0 to |testBuilds|
      invariant |parts| == i && result == Concat(parts)
      invariant forall k | 0 <= k < i :: IsPart(testBuilds[k], k + 1, parts[k])
    {
      var artifacts := if testBuilds[i].Some? then testBuilds[i].value else [];
      var more := ProcessSolutionArtifacts(artifacts, i + 1);
      NothingToGrade(i + 1, more);
      assert (parts + [more])[..i] == parts;
      result, parts := result + more, parts + [more];
    }
    assert AreGraded(testBuilds, parts);
  }

  // ---------------------------------------------------------------- the verdict

  function Severity(status: SolutionStatus): nat {
    match status
    case RUNTIME_ERROR => 4
    case VALGRIND_ERRORS => 3
    case TIME_LIMIT => 2
    case WRONG_ANSWER => 1
    case _ => 0
  }

  function Worst(a: SolutionStatus, b: SolutionStatus): SolutionStatus { if Severity(a) >= Severity(b) then a else b }

  /** The most severe status, OK if there is nothing severe. */
  function Verdict(results: seq<TestResult>): SolutionStatus {
    if results == [] then OK else Worst(Verdict(results[..|results| - 1]), results[|results| - 1].status)
  }

  predicate Has(results: seq<TestResult>, status: SolutionStatus) { exists r | r in results :: r.status == status }

  class Submission {
    var status: SolutionStatus
    var buildErrorLog: string
    var styleErrorLog: string
    var testResults: seq<TestResult>

    method ApplyTestResults(results: seq<TestResult>)
      modifies this
      ensures status == Verdict(results)
      ensures status == RUNTIME_ERROR <==> Has(results, RUNTIME_ERROR)
      ensures status == VALGRIND_ERRORS <==> Has(results, VALGRIND_ERRORS) && !Has(results, RUNTIME_ERROR)
      ensures status == TIME_LIMIT <==>
                Has(results, TIME_LIMIT) && !Has(results, VALGRIND_ERRORS) && !Has(results, RUNTIME_ERROR)
      ensures status == WRONG_ANSWER <==>
                && Has(results, WRONG_ANSWER) && !Has(results, TIME_LIMIT)
                && !Has(results, VALGRIND_ERRORS) && !Has(results, RUNTIME_ERROR)
      ensures status in {OK, WRONG_ANSWER, TIME_LIMIT, VALGRIND_ERRORS, RUNTIME_ERROR}
      ensures testResults == old(testResults) + results
      ensures buildErrorLog == "" && styleErrorLog == old(styleErrorLog)
    {
      var hasCompileError := exists e :: e in results && e.status == COMPILATION_ERROR;
      var hasRuntimeError := exists e :: e in results && e.status == RUNTIME_ERROR;
      var hasValgrindError := exists e :: e in results && e.status == VALGRIND_ERRORS;
      var hasTimeLimit := exists e :: e in results && e.status == TIME_LIMIT;
      var hasWrongAnswer := exists e :: e in results && e.status == WRONG_ANSWER;
      if hasCompileError {
        status := COMPILATION_ERROR;
        buildErrorLog := "";
      }
      if hasRuntimeError {
        status := RUNTIME_ERROR;
      } else if hasValgrindError {
        status := VALGRIND_ERRORS;
      } else if hasTimeLimit {
        status := TIME_LIMIT;
      } else if hasWrongAnswer {
        status := WRONG_ANSWER;
      } else {
        status := OK;
      }
      VerdictIsWorst(results);
      if status != COMPILATION_ERROR && status != CHECK_FAILED {
        buildErrorLog := "";
      }
      testResults := testResults + results;
    }
  }

  /** OK, or the status of some result, and no result is more severe. */
  lemma {:induction false} VerdictIsWorst(results: seq<TestResult>)
    ensures var v := Verdict(results);
            && (forall r | r in results :: Severity(r.status) <= Severity(v))
            && (v == OK || (Severity(v) > 0 && exists r :: r in results && r.status == v))
  {
    if results != [] {
      var before, last := results[..|results| - 1], results[|results| - 1];
      VerdictIsWorst(before);
      assert results == before + [last] && last in results;
      assert forall r | r in before :: r in results;
    }
  }

  /** The verdict does not depend on the order of the results, nor on how often each occurs. */
  lemma VerdictOfPermutation(a: seq<TestResult>, b: seq<TestResult>)
    requires forall r :: r in a <==> r in b
    ensures Verdict(a) == Verdict(b)
  {
    VerdictIsWorst(a);
    VerdictIsWorst(b);
  }

  lemma VerdictOfConcatenation(a: seq<TestResult>, b: seq<TestResult>)
    ensures Verdict(a + b) == Worst(Verdict(a), Verdict(b))
  {
    VerdictIsWorst(a);
    VerdictIsWorst(b);
    VerdictIsWorst(a + b);
  }

  /** Nothing but what grading can give, so that no result is overlooked. */
  predicate AllJudged(results: seq<TestResult>) {
    forall r | r in results :: r.status in {OK, WRONG_ANSWER, TIME_LIMIT, VALGRIND_ERRORS, RUNTIME_ERROR}
  }

  lemma BuildsAreOkIff(testBuilds: seq<Option<seq<BuildArtifact>>>, parts: seq<seq<TestResult>>)
    requires AreGraded(testBuilds, parts)
    ensures Verdict(Concat(parts)) == OK <==>
            forall i, k | 0 <= i < |testBuilds| && testBuilds[i].Some? && 0 <= k < |testBuilds[i].value| ::
              i < |testBuilds[i].value[k].tests| ==> Passes(testBuilds[i].value[k].tests[i])
  {
    ConcatIsOkIff(parts);
    forall i | 0 <= i < |parts|
      ensures testBuilds[i].None? ==> Verdict(parts[i]) == OK
      ensures testBuilds[i].Some? ==>
        (Verdict(parts[i]) == OK <==>
         forall k | 0 <= k < |testBuilds[i].value| :: i < |testBuilds[i].value[k].tests| ==>
             Passes(testBuilds[i].value[k].tests[i]))
    {
      if testBuilds[i].Some? {
        OneBuildIsOkIff(testBuilds[i].value, i, parts[i]);
      }
    }
  }

  lemma OneBuildIsOkIff(artifacts: seq<BuildArtifact>, i: nat, results: seq<TestResult>)
    requires IsGraded(artifacts, i + 1, results)
    ensures Verdict(results) == OK <==>
            forall k | 0 <= k < |artifacts| :: i < |artifacts[k].tests| ==> Passes(artifacts[k].tests[i])
  {
    VerdictIsFirstFailure(artifacts, i + 1, results);
    if Verdict(results) == OK {
      forall k | 0 <= k < |artifacts| && i < |artifacts[k].tests| ensures Passes(artifacts[k].tests[i]) {
        assert TestAt(k, i).Counts(artifacts, i + 1) && TestAt(k, i).Run(artifacts) == artifacts[k].tests[i];
      }
    }
  }

  lemma {:induction false} ConcatIsOkIff(parts: seq<seq<TestResult>>)
    ensures Verdict(Concat(parts)) == OK <==> forall i | 0 <= i < |parts| :: Verdict(parts[i]) == OK
  {
    if parts != [] {
      var n := |parts| - 1;
      ConcatIsOkIff(parts[..n]);
      VerdictOfConcatenation(Concat(parts[..n]), parts[n]);
      VerdictIsWorst(Concat(parts[..n]));
      VerdictIsWorst(parts[n]);
    }
  }

  /** With the build for test `i`, the first of its tests that does not pass fails with this status. */
  predicate FailsAs(testBuilds: seq<Option<seq<BuildArtifact>>>, i: nat, x: TestAt, status: SolutionStatus) {
    && i < |testBuilds| && testBuilds[i].Some? && IsFirstFailing(testBuilds[i].value, i + 1, x)
    && FullResult(testBuilds[i].value[x.artifact], x.test).status == status
  }

  /** With a build per test the submission is OK if and only if every test that could be built
      passes with each of its artifacts: a test whose build failed does not count against it.
      Otherwise it gets the most severe of the statuses with which the builds first fail. */
  ghost predicate IsVerdictOfBuilds(testBuilds: seq<Option<seq<BuildArtifact>>>, status: SolutionStatus) {
    && (status == OK <==>
          forall i, k | 0 <= i < |testBuilds| && testBuilds[i].Some? && 0 <= k < |testBuilds[i].value| ::
            i < |testBuilds[i].value[k].tests| ==> Passes(testBuilds[i].value[k].tests[i]))
    && (status != OK ==> exists i, x :: FailsAs(testBuilds, i, x, status))
    && (forall i, x, other | FailsAs(testBuilds, i, x, other) :: Severity(other) <= Severity(status))
  }

  lemma BuildsVerdict(testBuilds: seq<Option<seq<BuildArtifact>>>, parts: seq<seq<TestResult>>)
    requires AreGraded(testBuilds, parts)
    ensures IsVerdictOfBuilds(testBuilds, Verdict(Concat(parts)))
  {
    BuildsAreOkIff(testBuilds, parts);
    VerdictIsOneOfParts(parts);
    forall i, x, other | FailsAs(testBuilds, i, x, other) ensures Severity(other) <= Severity(Verdict(Concat(parts))) {
      PartsVerdict(testBuilds, parts, i, x, other);
    }
    if Verdict(Concat(parts)) != OK {
      var i: nat :| i < |parts| && Verdict(parts[i]) == Verdict(Concat(parts));
      var x := PartFails(testBuilds, parts, i);
    }
  }

  lemma PartsVerdict(testBuilds: seq<Option<seq<BuildArtifact>>>, parts: seq<seq<TestResult>>, i: nat, x: TestAt,
                     status: SolutionStatus)
    requires AreGraded(testBuilds, parts) && FailsAs(testBuilds, i, x, status)
    ensures Verdict(parts[i]) == status
  {
    assert IsPart(testBuilds[i], i + 1, parts[i]);
    VerdictIsFirstFailure(testBuilds[i].value, i + 1, parts[i]);
  }

  lemma PartFails(testBuilds: seq<Option<seq<BuildArtifact>>>, parts: seq<seq<TestResult>>, i: nat) returns (x: TestAt)
    requires AreGraded(testBuilds, parts) && i < |parts| && Verdict(parts[i]) != OK
    ensures FailsAs(testBuilds, i, x, Verdict(parts[i]))
  {
    assert IsPart(testBuilds[i], i + 1, parts[i]);
    VerdictIsFirstFailure(testBuilds[i].value, i + 1, parts[i]);
    x :| IsFirstFailing(testBuilds[i].value, i + 1, x);
  }

  lemma {:induction false} VerdictIsOneOfParts(parts: seq<seq<TestResult>>)
    ensures forall i | 0 <= i < |parts| :: Severity(Verdict(parts[i])) <= Severity(Verdict(Concat(parts)))
    ensures Verdict(Concat(parts)) != OK ==> exists i | 0 <= i < |parts| :: Verdict(parts[i]) == Verdict(Concat(parts))
  {
    if parts != [] {
      var n := |parts| - 1;
      VerdictIsOneOfParts(parts[..n]);
      VerdictOfConcatenation(Concat(parts[..n]), parts[n]);
      var worst := Verdict(Concat(parts));
      forall i | 0 <= i < |parts| ensures Severity(Verdict(parts[i])) <= Severity(worst) {
        assert i < n ==> parts[..n][i] == parts[i];
      }
      if worst != OK && worst != Verdict(parts[n]) {
        var i :| 0 <= i < n && Verdict(parts[..n][i]) == worst;
        assert Verdict(parts[i]) == worst;
      }
    }
  }

  /** A compilation error among the results is overwritten. */
  lemma CompilationErrorIsLost(results: seq<TestResult>, compilationError: TestResult)
    requires compilationError.status == COMPILATION_ERROR
    ensures Verdict(results + [compilationError]) == Verdict(results)
  {
    VerdictIsWorst(results);
    VerdictIsWorst(results + [compilationError]);
    assert forall r | r in results :: r in results + [compilationError];
  }

  // ---------------------------------------------------------------- a whole submission

  predicate AllTestsPass(artifacts: seq<BuildArtifact>) {
    forall k, t | 0 <= k < |artifacts| && 0 <= t < |artifacts[k].tests| :: Passes(artifacts[k].tests[t])
  }

  /** The results end with that of the first failing test. */
  predicate EndsWithFailure(artifacts: seq<BuildArtifact>, x: TestAt, status: SolutionStatus, results: seq<TestResult>)
    requires x.Counts(artifacts, 0)
  {
    && results != [] && results[|results| - 1] == FullResult(artifacts[x.artifact], x.test)
    && status == results[|results| - 1].status
  }

  /** OK if and only if every test of every artifact passes; otherwise the status of the first that
      does not, artifact by artifact, whose result is the last. */
  ghost predicate IsVerdictOfTests(artifacts: seq<BuildArtifact>, status: SolutionStatus, results: seq<TestResult>) {
    && (status == OK <==> AllTestsPass(artifacts))
    && (status != OK ==> exists x :: IsFirstFailing(artifacts, 0, x))
    && (forall x | IsFirstFailing(artifacts, 0, x) :: EndsWithFailure(artifacts, x, status, results))
  }

  lemma TestsVerdict(artifacts: seq<BuildArtifact>, results: seq<TestResult>)
    requires IsGraded(artifacts, 0, results)
    ensures IsVerdictOfTests(artifacts, Verdict(results), results)
  {
    VerdictIsFirstFailure(artifacts, 0, results);
    AllTestsIff(artifacts);
  }

  lemma AllTestsIff(artifacts: seq<BuildArtifact>)
    ensures (forall x: TestAt | x.Counts(artifacts, 0) :: Passes(x.Run(artifacts))) <==> AllTestsPass(artifacts)
  {
    if forall x: TestAt | x.Counts(artifacts, 0) :: Passes(x.Run(artifacts)) {
      forall k, t | 0 <= k < |artifacts| && 0 <= t < |artifacts[k].tests| ensures Passes(artifacts[k].tests[t]) {
        assert TestAt(k, t).Counts(artifacts, 0) && TestAt(k, t).Run(artifacts) == artifacts[k].tests[t];
      }
    }
  }

  lemma LaterResults(artifacts: seq<BuildArtifact>, status: SolutionStatus, before: seq<TestResult>,
                     results: seq<TestResult>)
    requires IsVerdictOfTests(artifacts, status, results)
    ensures IsVerdictOfTests(artifacts, status, before + results)
  {
    forall x | IsFirstFailing(artifacts, 0, x) ensures EndsWithFailure(artifacts, x, status, before + results) {
      EndsLater(artifacts, x, status, before, results);
    }
  }

  lemma EndsLater(artifacts: seq<BuildArtifact>, x: TestAt, status: SolutionStatus, before: seq<TestResult>,
                  results: seq<TestResult>)
    requires x.Counts(artifacts, 0) && EndsWithFailure(artifacts, x, status, results)
    ensures EndsWithFailure(artifacts, x, status, before + results)
  {
  }

  datatype BuildResult = Built(artifacts: seq<BuildArtifact>) | BuildFailed(message: string)

  method ProcessSubmissionGuarded(submission: Submission, styleErrors: string, testsRequiresBuild: bool,
                                  build: BuildResult, testBuilds: seq<Option<seq<BuildArtifact>>>)
    modifies submission
    ensures styleErrors != "" ==>
              submission.status == STYLE_CHECK_ERROR && submission.styleErrorLog == styleErrors
              && submission.testResults == old(submission.testResults)
    ensures styleErrors == "" ==> submission.styleErrorLog == old(submission.styleErrorLog)
    ensures styleErrors == "" && !testsRequiresBuild && build.BuildFailed? ==>
              submission.status == COMPILATION_ERROR && submission.buildErrorLog == build.message
              && submission.testResults == old(submission.testResults)
    ensures styleErrors == "" && !testsRequiresBuild && build.Built? ==>
              && IsVerdictOfTests(build.artifacts, submission.status, submission.testResults)
              && submission.buildErrorLog == "" && old(submission.testResults) <= submission.testResults
    ensures styleErrors == "" && testsRequiresBuild ==>
              && IsVerdictOfBuilds(testBuilds, submission.status)
              && submission.buildErrorLog == "" && old(submission.testResults) <= submission.testResults
  {
    if styleErrors != "" {
      submission.styleErrorLog := styleErrors;
      submission.status := STYLE_CHECK_ERROR;
      return;
    }
    if !testsRequiresBuild && build.BuildFailed? {
      submission.status := COMPILATION_ERROR;
      submission.buildErrorLog := build.message;
      return;
    }
    var artifacts := if testsRequiresBuild then [] else build.artifacts;
    var results := ProcessTests(testsRequiresBuild, testBuilds, artifacts);
    if !testsRequiresBuild {
      TestsVerdict(artifacts, results);
      LaterResults(artifacts, Verdict(results), submission.testResults, results);
    } else {
      ghost var parts :| AreGraded(testBuilds, parts) && results == Concat(parts);
      BuildsVerdict(testBuilds, parts);
    }
    submission.ApplyTestResults(results);
  }
}
