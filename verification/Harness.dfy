/**
  The grading harness: running a submission against its test cases, adding up the score, deciding the
  overall verdict, and hiding the data of hidden cases from students.
 */
module Harness {
  import opened Models
  import Verifier
  import Consumers = StreamConsumers

  datatype Verdict =
    | Accepted
    | Partial
    | WrongAnswer
    | TimeLimitExceeded
    | MemoryLimitExceeded
    | RuntimeError
    | CompileError
    | SystemError
    | Pending

  datatype TestCase = TestCase(
    id: string, inputData: string, expectedOutput: string, isHidden: bool, weight: int, order: int)

  /** What the sandbox reports for one case. */
  datatype Execution = Execution(
    status: ExecutionStatus, exitCode: Option<int>, stdout: string, stderr: string,
    timeMs: int, peakMemory: Option<int>, compileOutput: string)

  datatype Outcome = Raised(message: string) | Ran(result: Execution)

  datatype CaseVerdict = CaseVerdict(
    testCaseId: string, order: int, status: Verdict, passed: bool, durationMs: int, memoryBytes: int,
    isHidden: bool, weight: int, earnedPoints: int,
    inputData: Option<string>, expectedOutput: Option<string>, actualOutput: Option<string>,
    diff: Option<string>, errorMessage: Option<string>)

  datatype Summary = Summary(
    submissionId: string, problemId: string, overallStatus: Verdict,
    totalScore: int, maxScore: int, passedCount: int, totalTestCases: int,
    executionTimeMs: int, peakMemoryBytes: int, compileError: Option<string>, results: seq<CaseVerdict>)

  /** Limits and comparison of one grading run; `render` and `explain` make the diff and the failure reason. */
  datatype Settings = Settings(
    timeLimitMs: int, memoryLimitMb: int, mode: Verifier.Mode, epsilon: real, parse: string -> Verifier.Parsed,
    render: (string, string) -> string, explain: (string, string) -> string)

  // ---------- One case ----------

  function Failed(tc: TestCase, status: Verdict, timeMs: int, memory: int,
                  actual: Option<string>, diff: Option<string>, message: string): CaseVerdict {
    CaseVerdict(tc.id, tc.order, status, false, timeMs, memory, tc.isHidden, tc.weight, 0,
                Some(tc.inputData), Some(tc.expectedOutput), actual, diff, Some(message))
  }

  function Memory(r: Execution): int {
    if r.peakMemory.Some? then r.peakMemory.value else 0
  }

  predicate FailsToCompile(o: Outcome) {
    o.Ran? && o.result.status == ExecutionStatus.CompileError
  }

  function NotCompiled(tc: TestCase, timeMs: int, memory: int): CaseVerdict {
    Failed(tc, Verdict.CompileError, timeMs, memory, None, None, "Compilation failed")
  }

  predicate TooSlow(r: Execution, s: Settings) {
    r.status == ExecutionStatus.TimeLimitExceeded || r.timeMs > s.timeLimitMs
  }

  predicate TooBig(r: Execution, s: Settings) {
    var limit := s.memoryLimitMb * 1024 * 1024;
    r.status == ExecutionStatus.MemoryLimitExceeded || (Memory(r) > limit && limit > 0)
  }

  predicate Crashed(r: Execution) {
    r.status == ExecutionStatus.RuntimeError || (r.exitCode.Some? && r.exitCode.value != 0)
  }

  predicate Matches(r: Execution, tc: TestCase, s: Settings) {
    Verifier.Verify(r.stdout, tc.expectedOutput, s.mode, s.epsilon, s.parse)
  }

  function ExitText(exitCode: Option<int>): string {
    if exitCode.Some? then Consumers.Decimal(exitCode.value) else "None"
  }

  /** The verdict of a case that was run, or whose sandbox raised, and that did not fail to compile. */
  function Judge(tc: TestCase, o: Outcome, s: Settings): CaseVerdict {
    match o
    case Raised(message) => Failed(tc, Verdict.SystemError, 0, 0, None, None, "System error: " + message)
    case Ran(r) =>
      if TooSlow(r, s) then
        Failed(tc, Verdict.TimeLimitExceeded, r.timeMs, Memory(r), Some(r.stdout), None,
               "Time limit of " + Consumers.Decimal(s.timeLimitMs) + "ms exceeded")
      else if TooBig(r, s) then
        Failed(tc, Verdict.MemoryLimitExceeded, r.timeMs, Memory(r), Some(r.stdout), None,
               "Memory limit of " + Consumers.Decimal(s.memoryLimitMb) + "MB exceeded")
      else if Crashed(r) then
        Failed(tc, Verdict.RuntimeError, r.timeMs, Memory(r), Some(r.stdout), None,
               if r.stderr != "" then r.stderr else "Process exited with non-zero code " + ExitText(r.exitCode))
      else if Matches(r, tc, s) then
        CaseVerdict(tc.id, tc.order, Accepted, true, r.timeMs, Memory(r), tc.isHidden, tc.weight, tc.weight,
                    Some(tc.inputData), Some(tc.expectedOutput), Some(r.stdout), None, None)
      else
        Failed(tc, WrongAnswer, r.timeMs, Memory(r), Some(r.stdout), Some(s.render(tc.expectedOutput, r.stdout)),
               s.explain(tc.expectedOutput, r.stdout))
  }

  // ---------- All cases ----------

  /** The number of the first case that fails to compile, or the number of cases. */
  function FirstCompileError(outcomes: seq<Outcome>): (k: nat)
    ensures k <= |outcomes|
    ensures forall i :: 0 <= i < k ==> !FailsToCompile(outcomes[i])
    ensures k < |outcomes| ==> FailsToCompile(outcomes[k])
  {
    if outcomes == [] || FailsToCompile(outcomes[0]) then 0 else 1 + FirstCompileError(outcomes[1..])
  }

  /** Up to the first compile error each case has its own verdict; from there on all are compile errors. */
  function VerdictAt(cases: seq<TestCase>, outcomes: seq<Outcome>, s: Settings, i: nat): CaseVerdict
    requires |outcomes| == |cases| && i < |cases|
  {
    var k := FirstCompileError(outcomes);
    if i < k then Judge(cases[i], outcomes[i], s)
    else if i == k then NotCompiled(cases[i], outcomes[i].result.timeMs, Memory(outcomes[i].result))
    else NotCompiled(cases[i], 0, 0)
  }

  function Verdicts(cases: seq<TestCase>, outcomes: seq<Outcome>, s: Settings): seq<CaseVerdict>
    requires |outcomes| == |cases|
  {
    seq(|cases|, i requires 0 <= i < |cases| => VerdictAt(cases, outcomes, s, i))
  }

  /** The compiler's text of the first compile error. */
  function CompileText(outcomes: seq<Outcome>): Option<string> {
    var k := FirstCompileError(outcomes);
    if k == |outcomes| then None
    else
      var r := outcomes[k].result;
      Some(if r.compileOutput != "" then r.compileOutput else r.stderr)
  }

  function TotalWeight(cases: seq<TestCase>): int {
    if cases == [] then 0 else TotalWeight(cases[..|cases| - 1]) + cases[|cases| - 1].weight
  }

  function TotalEarned(results: seq<CaseVerdict>): int {
    if results == [] then 0 else TotalEarned(results[..|results| - 1]) + results[|results| - 1].earnedPoints
  }

  function CountPassed(results: seq<CaseVerdict>): nat {
    if results == [] then 0
    else CountPassed(results[..|results| - 1]) + (if results[|results| - 1].passed then 1 else 0)
  }

  function TotalDuration(results: seq<CaseVerdict>): int {
    if results == [] then 0 else TotalDuration(results[..|results| - 1]) + results[|results| - 1].durationMs
  }

  function PeakMemory(results: seq<CaseVerdict>): int {
    if results == [] then 0 else Max(PeakMemory(results[..|results| - 1]), results[|results| - 1].memoryBytes)
  }

  /** The overall verdict; an empty compiler text counts as no compile error. */
  function OverallStatus(results: seq<CaseVerdict>, compileError: Option<string>): Verdict {
    if compileError.Some? && compileError.value != "" then Verdict.CompileError
    else if forall i :: 0 <= i < |results| ==> results[i].passed then Accepted
    else if exists i :: 0 <= i < |results| && results[i].passed then Partial
    else results[0].status
  }

  method DetermineOverallStatus(results: seq<CaseVerdict>, compileError: Option<string>) returns (status: Verdict)
    ensures status == OverallStatus(results, compileError)
  {
    if compileError.Some? && compileError.value != "" {
      return Verdict.CompileError;
    }
    if forall i :: 0 <= i < |results| ==> results[i].passed {
      return Accepted;
    }
    if exists i :: 0 <= i < |results| && results[i].passed {
      return Partial;
    }
    for i := 0 to |results|
      invariant i == 0
    {
      if !results[i].passed {
        return results[i].status;
      }
    }
    status := WrongAnswer;
  }

  method SumWeights(cases: seq<TestCase>) returns (sum: int)
    ensures sum == TotalWeight(cases)
  {
    sum := 0;
    for i := 0 to |cases|
      invariant sum == TotalWeight(cases[..i])
    {
      assert cases[..i + 1][..i] == cases[..i];
      sum := sum + cases[i].weight;
    }
    assert cases[..|cases|] == cases;
  }

  /** The counters of the grading loop. */
  datatype Tally = Tally(score: int, passed: int, time: int, memory: int)

  predicate Tallied(results: seq<CaseVerdict>, t: Tally) {
    && t.score == TotalEarned(results) && t.passed == CountPassed(results)
    && t.time == TotalDuration(results) && t.memory == PeakMemory(results) && t.memory >= 0
  }

  /** All cases after one that fails to compile are compile errors, too. */
  method FailRemaining(cases: seq<TestCase>, outcomes: seq<Outcome>, s: Settings,
                       done: seq<CaseVerdict>, ghost t: Tally)
    returns (results: seq<CaseVerdict>)
    requires |outcomes| == |cases|
    requires |done| == FirstCompileError(outcomes) + 1 <= |cases| && done == Verdicts(cases, outcomes, s)[..|done|]
    requires Tallied(done, t)
    ensures results == Verdicts(cases, outcomes, s) && Tallied(results, t)
  {
    hide Judge, FirstCompileError, FailsToCompile, TotalEarned, CountPassed, TotalDuration, PeakMemory;
    results := done;
    for j := |done| to |cases|
      invariant results == Verdicts(cases, outcomes, s)[..j]
      invariant Tallied(results, t)
    {
      var verdict := NotCompiled(cases[j], 0, 0);
      TalliedSnoc(results, verdict, t);
      assert Verdicts(cases, outcomes, s)[j] == verdict;
      results := results + [verdict];
    }
  }

  /** The loop over the cases. */
  method JudgeCases(cases: seq<TestCase>, outcomes: seq<Outcome>, s: Settings)
    returns (results: seq<CaseVerdict>, t: Tally, compileError: Option<string>)
    requires |outcomes| == |cases|
    ensures results == Verdicts(cases, outcomes, s) && Tallied(results, t)
    ensures compileError == CompileText(outcomes)
  {
    hide Judge, Failed, TotalEarned, CountPassed, TotalDuration, PeakMemory;
    results, t, compileError := [], Tally(0, 0, 0, 0), None;
    NothingTallied();
    ghost var k := FirstCompileError(outcomes);
    var idx := 0;
    while idx < |cases|
      invariant 0 <= idx <= k
      invariant results == Verdicts(cases, outcomes, s)[..idx] && compileError == None
      invariant Tallied(results, t)
    {
      var (tc, o) := (cases[idx], outcomes[idx]);
      if FailsToCompile(o) {
        var r := o.result;
        compileError := Some(if r.compileOutput != "" then r.compileOutput else r.stderr);
        var verdict := NotCompiled(tc, r.timeMs, Memory(r));
        TalliedSnoc(results, verdict, t);
        NotCompiledReports(tc, r.timeMs, Memory(r));
        t := t.(time := t.time + r.timeMs, memory := Max(t.memory, Memory(r)));
        results := FailRemaining(cases, outcomes, s, results + [verdict], t);
        return;
      }
      var verdict := Judge(tc, o, s);
      TalliedSnoc(results, verdict, t);
      JudgeReports(tc, o, s);
      if o.Ran? {
        t := t.(time := t.time + o.result.timeMs, memory := Max(t.memory, Memory(o.result)));
        if verdict.passed {
          t := t.(passed := t.passed + 1, score := t.score + tc.weight);
        }
      }
      results := results + [verdict];
      idx := idx + 1;
    }
  }

  /**
    Grading a submission. `outcomes[i]` is what the sandbox does if case `i` is run.
   */
  method EvaluateSubmission(submissionId: string, problemId: string,
                            cases: seq<TestCase>, outcomes: seq<Outcome>, s: Settings) returns (summary: Summary)
    requires |outcomes| == |cases|
    ensures summary.submissionId == submissionId && summary.problemId == problemId
    ensures summary.results == Verdicts(cases, outcomes, s)
    ensures summary.totalScore == TotalEarned(summary.results) && summary.maxScore == TotalWeight(cases)
    ensures summary.passedCount == CountPassed(summary.results) && summary.totalTestCases == |cases|
    ensures summary.executionTimeMs == TotalDuration(summary.results)
    ensures summary.peakMemoryBytes == PeakMemory(summary.results)
    ensures summary.compileError == CompileText(outcomes)
    ensures summary.overallStatus == OverallStatus(summary.results, summary.compileError)
  {
    hide Judge, Verdicts, OverallStatus, CompileText;
    var maxScore := SumWeights(cases);
    var results, t, compileError := JudgeCases(cases, outcomes, s);
    var overall := DetermineOverallStatus(results, compileError);
    summary := Summary(submissionId, problemId, overall, t.score, maxScore, t.passed, |cases|,
                       t.time, t.memory, compileError, results);
  }

  lemma AddOne(results: seq<CaseVerdict>, v: CaseVerdict)
    ensures TotalEarned(results + [v]) == TotalEarned(results) + v.earnedPoints
    ensures CountPassed(results + [v]) == CountPassed(results) + (if v.passed then 1 else 0)
    ensures TotalDuration(results + [v]) == TotalDuration(results) + v.durationMs
    ensures PeakMemory(results + [v]) == Max(PeakMemory(results), v.memoryBytes)
  {
    assert (results + [v])[..|results|] == results;
  }

  lemma NothingTallied()
    ensures Tallied([], Tally(0, 0, 0, 0))
  {
  }

  lemma TalliedSnoc(results: seq<CaseVerdict>, v: CaseVerdict, t: Tally)
    requires Tallied(results, t)
    ensures Tallied(results + [v], Tally(t.score + v.earnedPoints, t.passed + (if v.passed then 1 else 0),
                                         t.time + v.durationMs, Max(t.memory, v.memoryBytes)))
  {
    AddOne(results, v);
  }

  lemma NotCompiledReports(tc: TestCase, timeMs: int, memory: int)
    ensures var v := NotCompiled(tc, timeMs, memory);
            && !v.passed && v.earnedPoints == 0 && v.durationMs == timeMs && v.memoryBytes == memory
  {
  }

  /** What the verdict of one case carries, whichever branch made it. */
  lemma JudgeReports(tc: TestCase, o: Outcome, s: Settings)
    ensures var v := Judge(tc, o, s);
            && (v.testCaseId, v.order, v.isHidden, v.weight) == (tc.id, tc.order, tc.isHidden, tc.weight)
            && v.earnedPoints == (if v.passed then tc.weight else 0)
            && v.durationMs == (if o.Ran? then o.result.timeMs else 0)
            && v.memoryBytes == (if o.Ran? then Memory(o.result) else 0)
            && (v.passed <==> v.status == Accepted)
            && v.status != Verdict.CompileError && v.status != Partial
            && (v.passed <==> o.Ran? && !TooSlow(o.result, s) && !TooBig(o.result, s) && !Crashed(o.result)
                              && Matches(o.result, tc, s))
  {
    hide Consumers.Decimal;
  }

  // ---------- What students see ----------

  const REDACTED := "[REDACTED: HIDDEN TEST CASE]"

  function StatusText(status: Verdict): string {
    match status
    case Accepted => "ACCEPTED"
    case Partial => "PARTIAL"
    case WrongAnswer => "WRONG_ANSWER"
    case TimeLimitExceeded => "TIME_LIMIT_EXCEEDED"
    case MemoryLimitExceeded => "MEMORY_LIMIT_EXCEEDED"
    case RuntimeError => "RUNTIME_ERROR"
    case CompileError => "COMPILE_ERROR"
    case SystemError => "SYSTEM_ERROR"
    case Pending => "PENDING"
  }

  function Redact(v: CaseVerdict): CaseVerdict {
    if !v.isHidden then v
    else v.(inputData := Some(REDACTED), expectedOutput := Some(REDACTED), actualOutput := None, diff := None,
            errorMessage := if v.passed then None else Some(StatusText(v.status)))
  }

  function RedactAll(results: seq<CaseVerdict>): seq<CaseVerdict> {
    seq(|results|, i requires 0 <= i < |results| => Redact(results[i]))
  }

  function Sanitized(summary: Summary): Summary {
    summary.(results := RedactAll(summary.results))
  }

  method SanitizeForStudent(summary: Summary) returns (r: Summary)
    ensures r == Sanitized(summary)
  {
    hide StatusText;
    var sanitized: seq<CaseVerdict> := [];
    for i := 0 to |summary.results|
      invariant sanitized == RedactAll(summary.results)[..i]
    {
      var res := summary.results[i];
      if res.isHidden {
        sanitized := sanitized + [
          CaseVerdict(res.testCaseId, res.order, res.status, res.passed, res.durationMs, res.memoryBytes, true,
                      res.weight, res.earnedPoints, Some(REDACTED), Some(REDACTED), None, None,
                      if res.passed then None else Some(StatusText(res.status)))];
      } else {
        sanitized := sanitized + [res];
      }
    }
    r := summary.(results := sanitized);
  }
}
