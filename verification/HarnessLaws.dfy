/**
  Properties of grading summaries and of what students see of them.
 */
module HarnessLaws {
  import opened Models
  import opened Harness
  import opened Utf8
  import Verifier
  import Consumers = StreamConsumers
  import Capture = StreamConsumerLaws
  import Container = DockerSandboxes

  // ---------- Scores ----------

  /** One verdict per case, in order, with the case's identity; points are earned by passing and by nothing else. */
  lemma VerdictsBelongToCases(cases: seq<TestCase>, outcomes: seq<Outcome>, s: Settings, i: nat)
    requires |outcomes| == |cases| && i < |cases|
    ensures var (v, tc, k) := (Verdicts(cases, outcomes, s)[i], cases[i], FirstCompileError(outcomes));
            && |Verdicts(cases, outcomes, s)| == |cases|
            && (v.testCaseId, v.order, v.isHidden, v.weight) == (tc.id, tc.order, tc.isHidden, tc.weight)
            && v.earnedPoints == (if v.passed then tc.weight else 0)
            && (v.passed <==> v.status == Accepted)
            && (i >= k <==> v.status == Verdict.CompileError)
  {
    JudgeReports(cases[i], outcomes[i], s);
  }

  /**
    With weights that are not negative the score lies between 0 and the maximum; with positive ones it is
    the maximum exactly when all cases pass.
   */
  lemma {:induction false} ScoreIsBounded(cases: seq<TestCase>, results: seq<CaseVerdict>)
    requires |results| == |cases|
    requires forall i :: 0 <= i < |cases| ==>
               cases[i].weight >= 0 && results[i].earnedPoints == (if results[i].passed then cases[i].weight else 0)
    ensures 0 <= TotalEarned(results) <= TotalWeight(cases)
    ensures (forall i :: 0 <= i < |cases| ==> cases[i].weight > 0) ==>
              (TotalEarned(results) == TotalWeight(cases) <==> forall i :: 0 <= i < |results| ==> results[i].passed)
  {
    if cases != [] {
      var n := |cases| - 1;
      ScoreIsBounded(cases[..n], results[..n]);
      assert forall i :: 0 <= i < n ==> results[..n][i] == results[i] && cases[..n][i] == cases[i];
    }
  }

  lemma {:induction false} CountIsFullIffAllPass(results: seq<CaseVerdict>)
    ensures CountPassed(results) <= |results|
    ensures CountPassed(results) == |results| <==> forall i :: 0 <= i < |results| ==> results[i].passed
  {
    if results != [] {
      var n := |results| - 1;
      CountIsFullIffAllPass(results[..n]);
      assert forall i :: 0 <= i < n ==> results[..n][i] == results[i];
    }
  }

  lemma PointsArePassed(cases: seq<TestCase>, outcomes: seq<Outcome>, s: Settings)
    requires |outcomes| == |cases|
    ensures var results := Verdicts(cases, outcomes, s);
            forall i :: 0 <= i < |cases| ==>
              results[i].earnedPoints == (if results[i].passed then cases[i].weight else 0)
  {
    forall i | 0 <= i < |cases| {
      VerdictsBelongToCases(cases, outcomes, s, i);
    }
  }

  /** The totals of a graded submission: bounded by the maximum, which is reached exactly when every case passes. */
  lemma GradedScore(cases: seq<TestCase>, outcomes: seq<Outcome>, s: Settings)
    requires |outcomes| == |cases|
    requires forall i :: 0 <= i < |cases| ==> cases[i].weight >= 0
    ensures var results := Verdicts(cases, outcomes, s);
            && 0 <= TotalEarned(results) <= TotalWeight(cases)
            && ((forall i :: 0 <= i < |cases| ==> cases[i].weight > 0) ==>
                  (TotalEarned(results) == TotalWeight(cases) <==> CountPassed(results) == |cases|))
  {
    var results := Verdicts(cases, outcomes, s);
    PointsArePassed(cases, outcomes, s);
    ScoreIsBounded(cases, results);
    CountIsFullIffAllPass(results);
  }

  // ---------- The overall verdict ----------

  /**
    The overall verdict is ACCEPTED exactly when every case passed. A compile error shows as such exactly
    when the compiler said something or the first case already failed to compile; a silent compiler
    after a passed case gives PARTIAL.
   */
  lemma OverallVerdict(cases: seq<TestCase>, outcomes: seq<Outcome>, s: Settings)
    requires |outcomes| == |cases|
    ensures var results := Verdicts(cases, outcomes, s);
            var (k, text) := (FirstCompileError(outcomes), CompileText(outcomes));
            var overall := OverallStatus(results, text);
            && (overall == Accepted <==> forall i :: 0 <= i < |cases| ==> results[i].passed)
            && (k < |cases| ==> (overall == Verdict.CompileError <==> text.value != "" || k == 0))
            && (k == |cases| ==> overall != Verdict.CompileError)
            && (overall == Partial <==>
                  && (text == None || text.value == "")
                  && (exists i :: 0 <= i < |cases| && results[i].passed)
                  && (exists i :: 0 <= i < |cases| && !results[i].passed))
  {
    hide VerdictAt;
    var results := Verdicts(cases, outcomes, s);
    forall i | 0 <= i < |cases|
      ensures (results[i].passed <==> results[i].status == Accepted)
              && (i >= FirstCompileError(outcomes) <==> results[i].status == Verdict.CompileError)
              && results[i].status != Partial
    {
      VerdictsBelongToCases(cases, outcomes, s, i);
      NeverPartial(cases, outcomes, s, i);
    }
    var k := FirstCompileError(outcomes);
    assert k < |cases| ==> !results[k].passed;
  }

  lemma NeverPartial(cases: seq<TestCase>, outcomes: seq<Outcome>, s: Settings, i: nat)
    requires |outcomes| == |cases| && i < |cases|
    ensures Verdicts(cases, outcomes, s)[i].status != Partial
  {
    JudgeReports(cases[i], outcomes[i], s);
  }

  /** A compile error that is reported as PARTIAL: the first case passes, then the compiler fails silently. */
  lemma SilentCompileErrorIsPartial(tc: TestCase, s: Settings)
    requires s.timeLimitMs >= 0 && s.mode == Verifier.Strict
    ensures var pass := Ran(Execution(Completed, Some(0), tc.expectedOutput, "", 0, None, ""));
            var fail := Ran(Execution(ExecutionStatus.CompileError, Some(1), "", "", 0, None, ""));
            && FirstCompileError([pass, fail]) == 1
            && OverallStatus(Verdicts([tc, tc], [pass, fail], s), CompileText([pass, fail])) == Partial
  {
    var pass := Ran(Execution(Completed, Some(0), tc.expectedOutput, "", 0, None, ""));
    var fail := Ran(Execution(ExecutionStatus.CompileError, Some(1), "", "", 0, None, ""));
    assert [pass, fail][1..] == [fail];
    assert FirstCompileError([fail]) == 0;
    JudgeReports(tc, pass, s);
    OverallVerdict([tc, tc], [pass, fail], s);
    var results := Verdicts([tc, tc], [pass, fail], s);
    assert results[0].passed && !results[1].passed;
  }

  // ---------- Every verdict, exactly ----------

  /** The memory a run took; 0 if unknown. */
  function BytesUsed(r: Execution): int {
    match r.peakMemory
    case None => 0
    case Some(bytes) => bytes
  }

  /** Slow, big and crashed, in this order, decide before the output is looked at. */
  predicate RanTooLong(r: Execution, s: Settings) {
    r.status == ExecutionStatus.TimeLimitExceeded || r.timeMs > s.timeLimitMs
  }

  predicate UsedTooMuch(r: Execution, s: Settings) {
    || r.status == ExecutionStatus.MemoryLimitExceeded
    || (s.memoryLimitMb > 0 && BytesUsed(r) > 1048576 * s.memoryLimitMb)
  }

  predicate EndedBadly(r: Execution) {
    r.status == ExecutionStatus.RuntimeError || r.exitCode !in {None, Some(0)}
  }

  function ExitMessage(exitCode: Option<int>): string {
    match exitCode
    case None => "Process exited with non-zero code " + "None"
    case Some(code) => "Process exited with non-zero code " + Consumers.Decimal(code)
  }

  /** The verdict of a case that ran and compiled, and what it shows: data, output, diff and message. */
  lemma VerdictOfRun(tc: TestCase, r: Execution, s: Settings)
    ensures var v := Judge(tc, Ran(r), s);
            var matches := Verifier.Verify(r.stdout, tc.expectedOutput, s.mode, s.epsilon, s.parse);
            && (v.status == Verdict.TimeLimitExceeded <==> RanTooLong(r, s))
            && (v.status == Verdict.MemoryLimitExceeded <==> !RanTooLong(r, s) && UsedTooMuch(r, s))
            && (v.status == Verdict.RuntimeError <==> !RanTooLong(r, s) && !UsedTooMuch(r, s) && EndedBadly(r))
            && (v.status == WrongAnswer <==>
                  !RanTooLong(r, s) && !UsedTooMuch(r, s) && !EndedBadly(r) && !matches)
            && (v.status == Accepted <==> !RanTooLong(r, s) && !UsedTooMuch(r, s) && !EndedBadly(r) && matches)
            && v.inputData == Some(tc.inputData) && v.expectedOutput == Some(tc.expectedOutput)
            && v.actualOutput == Some(r.stdout)
            && v.diff == (if v.status == WrongAnswer then Some(s.render(tc.expectedOutput, r.stdout)) else None)
            && (v.errorMessage == None <==> v.status == Accepted)
            && (v.status == WrongAnswer ==> v.errorMessage == Some(s.explain(tc.expectedOutput, r.stdout)))
            && (v.status == Verdict.RuntimeError ==>
                  v.errorMessage == Some(if r.stderr == "" then ExitMessage(r.exitCode) else r.stderr))
            && (v.status == Verdict.TimeLimitExceeded ==>
                  v.errorMessage == Some("Time limit of " + Consumers.Decimal(s.timeLimitMs) + "ms exceeded"))
            && (v.status == Verdict.MemoryLimitExceeded ==>
                  v.errorMessage == Some("Memory limit of " + Consumers.Decimal(s.memoryLimitMb) + "MB exceeded"))
  {
    hide Consumers.Decimal, Verifier.Verify;
    LimitsAgree(r, s);
  }

  lemma LimitsAgree(r: Execution, s: Settings)
    ensures TooSlow(r, s) <==> RanTooLong(r, s)
    ensures TooBig(r, s) <==> UsedTooMuch(r, s)
    ensures Crashed(r) <==> EndedBadly(r)
  {
    assert r.exitCode.Some? ==> r.exitCode == Some(r.exitCode.value);
  }

  /** A raising sandbox gives SYSTEM_ERROR with its message, and nothing else does. */
  lemma VerdictOfRaise(tc: TestCase, o: Outcome, s: Settings)
    ensures var v := Judge(tc, o, s);
            && (v.status == Verdict.SystemError <==> o.Raised?)
            && (o.Raised? ==>
                  && v.inputData == Some(tc.inputData) && v.expectedOutput == Some(tc.expectedOutput)
                  && v.actualOutput == None && v.diff == None
                  && v.errorMessage == Some("System error: " + o.message))
  {
    hide Consumers.Decimal, Verifier.Verify;
  }

  predicate DidNotCompile(o: Outcome) {
    o.Ran? && o.result.status == ExecutionStatus.CompileError
  }

  /** Case `i` is the first that fails to compile. */
  predicate FirstToFail(outcomes: seq<Outcome>, i: nat) {
    i < |outcomes| && DidNotCompile(outcomes[i]) && forall j :: 0 <= j < i ==> !DidNotCompile(outcomes[j])
  }

  /**
    From the first case that fails to compile on, every case is a compile error without output; the first
    takes the time and memory of its run, the others none. The compiler's text is that case's, or its
    standard error if that is empty. Without such a case every case is judged on its own run.
   */
  lemma CompileErrorSpreads(cases: seq<TestCase>, outcomes: seq<Outcome>, s: Settings, k: nat)
    requires |outcomes| == |cases| && FirstToFail(outcomes, k)
    ensures var (results, r) := (Verdicts(cases, outcomes, s), outcomes[k].result);
            && |results| == |cases|
            && (forall i :: 0 <= i < k ==> results[i] == Judge(cases[i], outcomes[i], s))
            && (forall i :: k <= i < |cases| ==>
                  && results[i].status == Verdict.CompileError && !results[i].passed
                  && results[i].inputData == Some(cases[i].inputData)
                  && results[i].expectedOutput == Some(cases[i].expectedOutput)
                  && results[i].actualOutput == None && results[i].diff == None
                  && results[i].errorMessage == Some("Compilation failed"))
            && results[k].durationMs == r.timeMs && results[k].memoryBytes == BytesUsed(r)
            && (forall i :: k < i < |cases| ==> results[i].durationMs == 0 && results[i].memoryBytes == 0)
            && CompileText(outcomes) == Some(if r.compileOutput == "" then r.stderr else r.compileOutput)
  {
    hide Judge;
    FirstIsFirst(outcomes, k);
  }

  lemma FirstIsFirst(outcomes: seq<Outcome>, k: nat)
    requires FirstToFail(outcomes, k)
    ensures FirstCompileError(outcomes) == k
  {
    hide FirstCompileError;
    var f := FirstCompileError(outcomes);
    assert f < |outcomes| ==> DidNotCompile(outcomes[f]);
    assert forall i :: 0 <= i < f ==> !DidNotCompile(outcomes[i]);
  }

  lemma EverythingCompiles(cases: seq<TestCase>, outcomes: seq<Outcome>, s: Settings)
    requires |outcomes| == |cases| && forall i :: 0 <= i < |outcomes| ==> !DidNotCompile(outcomes[i])
    ensures CompileText(outcomes) == None
    ensures |Verdicts(cases, outcomes, s)| == |cases|
    ensures forall i :: 0 <= i < |cases| ==> Verdicts(cases, outcomes, s)[i] == Judge(cases[i], outcomes[i], s)
  {
    hide Judge, FirstCompileError;
    assert forall i :: 0 <= i < |outcomes| ==> !FailsToCompile(outcomes[i]) by {
      hide FirstCompileError;
      assert forall i :: 0 <= i < |outcomes| ==> (FailsToCompile(outcomes[i]) <==> DidNotCompile(outcomes[i]));
    }
  }

  /** The overall verdict of any verdicts: compiler text, all passed, some passed, or the first case's own verdict. */
  lemma OverallIsExactly(results: seq<CaseVerdict>, compileError: Option<string>)
    ensures var overall := OverallStatus(results, compileError);
            var said := compileError !in {None, Some("")};
            && (said ==> overall == Verdict.CompileError)
            && (!said && (forall i :: 0 <= i < |results| ==> results[i].passed) ==> overall == Accepted)
            && (&& !said
                && (exists i :: 0 <= i < |results| && results[i].passed)
                && (exists i :: 0 <= i < |results| && !results[i].passed)
                ==> overall == Partial)
            && (!said && results != [] && (forall i :: 0 <= i < |results| ==> !results[i].passed) ==>
                  overall == results[0].status)
  {
  }

  /** All totals add up, case by case. */
  lemma {:induction false} TotalsAddUp(a: seq<CaseVerdict>, b: seq<CaseVerdict>)
    ensures TotalEarned(a + b) == TotalEarned(a) + TotalEarned(b)
    ensures CountPassed(a + b) == CountPassed(a) + CountPassed(b)
    ensures TotalDuration(a + b) == TotalDuration(a) + TotalDuration(b)
    ensures PeakMemory(a + b) == Max(PeakMemory(a), PeakMemory(b))
    ensures PeakMemory(a) >= 0
  {
    if b == [] {
      assert a + b == a;
      PeakIsNatural(a);
    } else {
      var (init, v) := (b[..|b| - 1], b[|b| - 1]);
      TotalsAddUp(a, init);
      assert a + b == a + init + [v] && b == init + [v];
      AddOne(a + init, v);
      AddOne(init, v);
    }
  }

  lemma {:induction false} PeakIsNatural(a: seq<CaseVerdict>)
    ensures PeakMemory(a) >= 0
  {
    if a != [] {
      PeakIsNatural(a[..|a| - 1]);
    }
  }

  /** The totals of one verdict and of none. */
  lemma TotalsOfOne(v: CaseVerdict)
    ensures TotalEarned([v]) == v.earnedPoints && CountPassed([v]) == (if v.passed then 1 else 0)
    ensures TotalDuration([v]) == v.durationMs && PeakMemory([v]) == Max(0, v.memoryBytes)
    ensures TotalEarned([]) == 0 && CountPassed([]) == 0 && TotalDuration([]) == 0 && PeakMemory([]) == 0
  {
    assert [v][..0] == [];
  }

  /** The weights of the cases that did not pass. */
  function LostWeight(cases: seq<TestCase>, results: seq<CaseVerdict>): int
    requires |results| == |cases|
  {
    if cases == [] then 0
    else (if results[0].passed then 0 else cases[0].weight) + LostWeight(cases[1..], results[1..])
  }

  /** The score and the weight of the cases that did not pass make up the maximum score. */
  lemma {:induction false} NoPointIsLost(cases: seq<TestCase>, results: seq<CaseVerdict>)
    requires |results| == |cases|
    requires forall i :: 0 <= i < |cases| ==>
               results[i].earnedPoints == (if results[i].passed then cases[i].weight else 0)
    ensures TotalEarned(results) + LostWeight(cases, results) == TotalWeight(cases)
  {
    hide TotalEarned, TotalWeight;
    if cases == [] {
      NoTotals();
    } else {
      NoPointIsLost(cases[1..], results[1..]);
      assert results == [results[0]] + results[1..] && cases == [cases[0]] + cases[1..];
      TotalsAddUp([results[0]], results[1..]);
      TotalsOfOne(results[0]);
      WeightsAddUp(cases[0], cases[1..]);
    }
  }

  lemma NoTotals()
    ensures TotalEarned([]) == 0 && TotalWeight([]) == 0
  {
  }

  lemma {:induction false} WeightsAddUp(tc: TestCase, rest: seq<TestCase>)
    ensures TotalWeight([tc] + rest) == tc.weight + TotalWeight(rest)
  {
    if rest == [] {
      assert [tc] + rest == [tc] && [tc][..0] == [];
    } else {
      WeightsAddUp(tc, rest[..|rest| - 1]);
      assert ([tc] + rest)[..|rest|] == [tc] + rest[..|rest| - 1];
    }
  }

  // ---------- Redaction ----------

  /** What students see of a hidden case, and that they see the others whole. */
  lemma StudentsSee(summary: Summary, i: nat)
    requires i < |summary.results|
    ensures |Sanitized(summary).results| == |summary.results|
    ensures Sanitized(summary) == summary.(results := Sanitized(summary).results)
    ensures var (v, seen) := (summary.results[i], Sanitized(summary).results[i]);
            && (!v.isHidden ==> seen == v)
            && (v.isHidden ==>
                  && seen.inputData == seen.expectedOutput == Some("[REDACTED: HIDDEN TEST CASE]")
                  && seen.actualOutput == None && seen.diff == None
                  && (v.passed ==> seen.errorMessage == None)
                  && (!v.passed ==> seen.errorMessage == Some(StatusText(v.status)))
                  && (seen.testCaseId, seen.order, seen.status, seen.passed, seen.isHidden)
                     == (v.testCaseId, v.order, v.status, v.passed, true)
                  && (seen.durationMs, seen.memoryBytes, seen.weight, seen.earnedPoints)
                     == (v.durationMs, v.memoryBytes, v.weight, v.earnedPoints))
  {
    hide StatusText;
  }

  /** The texts that stand for the verdicts of failed cases. */
  lemma VerdictTexts()
    ensures StatusText(WrongAnswer) == "WRONG_ANSWER" && StatusText(Verdict.CompileError) == "COMPILE_ERROR"
    ensures StatusText(Verdict.TimeLimitExceeded) == "TIME_LIMIT_EXCEEDED"
    ensures StatusText(Verdict.MemoryLimitExceeded) == "MEMORY_LIMIT_EXCEEDED"
    ensures StatusText(Verdict.RuntimeError) == "RUNTIME_ERROR" && StatusText(Verdict.SystemError) == "SYSTEM_ERROR"
    ensures StatusText(Accepted) == "ACCEPTED" && StatusText(Partial) == "PARTIAL" && StatusText(Pending) == "PENDING"
  {
  }

  /** Two verdicts that differ at most in what must stay hidden. */
  predicate SamePublicly(a: CaseVerdict, b: CaseVerdict) {
    && a.isHidden == b.isHidden
    && if a.isHidden then
         (a.testCaseId, a.order, a.status, a.passed, a.durationMs, a.memoryBytes, a.weight, a.earnedPoints)
         == (b.testCaseId, b.order, b.status, b.passed, b.durationMs, b.memoryBytes, b.weight, b.earnedPoints)
       else a == b
  }

  predicate SummariesSamePublicly(a: Summary, b: Summary) {
    && a.(results := []) == b.(results := [])
    && |a.results| == |b.results|
    && forall i :: 0 <= i < |a.results| ==> SamePublicly(a.results[i], b.results[i])
  }

  lemma RedactHidesExactly(a: CaseVerdict, b: CaseVerdict)
    ensures Redact(a) == Redact(b) <==> SamePublicly(a, b)
  {
    hide StatusText;
  }

  /**
    Students see equal summaries exactly when the summaries differ only in the input, expected output,
    actual output, diff and error text of hidden cases: nothing hidden leaks and nothing else is lost.
   */
  lemma SanitizingHidesExactly(a: Summary, b: Summary)
    ensures Sanitized(a) == Sanitized(b) <==> SummariesSamePublicly(a, b)
  {
    hide StatusText, Redact;
    forall i | 0 <= i < |a.results| && i < |b.results|
      ensures Redact(a.results[i]) == Redact(b.results[i]) <==> SamePublicly(a.results[i], b.results[i])
    {
      RedactHidesExactly(a.results[i], b.results[i]);
    }
    if SummariesSamePublicly(a, b) {
      assert RedactAll(a.results) == RedactAll(b.results);
      assert Sanitized(a) == a.(results := []).(results := RedactAll(a.results));
      assert Sanitized(b) == b.(results := []).(results := RedactAll(b.results));
    }
    if Sanitized(a) == Sanitized(b) {
      assert |RedactAll(a.results)| == |RedactAll(b.results)|;
      forall i | 0 <= i < |a.results|
        ensures SamePublicly(a.results[i], b.results[i])
      {
        assert RedactAll(a.results)[i] == RedactAll(b.results)[i];
      }
      assert a.(results := []) == Sanitized(a).(results := []);
      assert b.(results := []) == Sanitized(b).(results := []);
    }
  }

  lemma {:induction false} RedactionKeepsTotals(results: seq<CaseVerdict>)
    ensures var r := RedactAll(results);
            && TotalEarned(r) == TotalEarned(results) && CountPassed(r) == CountPassed(results)
            && TotalDuration(r) == TotalDuration(results) && PeakMemory(r) == PeakMemory(results)
  {
    hide StatusText;
    if results != [] {
      var n := |results| - 1;
      RedactionKeepsTotals(results[..n]);
      assert RedactAll(results)[..n] == RedactAll(results[..n]);
    }
  }

  /**
    Sanitising changes no score and no verdict, a recomputed overall verdict included, and sanitising
    twice is sanitising once.
   */
  lemma SanitizingKeepsVerdicts(a: Summary)
    ensures Sanitized(Sanitized(a)) == Sanitized(a)
    ensures OverallStatus(Sanitized(a).results, a.compileError) == OverallStatus(a.results, a.compileError)
    ensures TotalEarned(Sanitized(a).results) == TotalEarned(a.results)
    ensures CountPassed(Sanitized(a).results) == CountPassed(a.results)
    ensures TotalDuration(Sanitized(a).results) == TotalDuration(a.results)
    ensures PeakMemory(Sanitized(a).results) == PeakMemory(a.results)
  {
    hide Redact, OverallStatus;
    var r := RedactAll(a.results);
    RedactionKeepsTotals(a.results);
    forall i | 0 <= i < |r|
      ensures Redact(r[i]) == r[i] && r[i].passed == a.results[i].passed && r[i].status == a.results[i].status
    {
      RedactTwice(a.results[i]);
    }
    assert RedactAll(r) == r;
    SameStatus(r, a.results, a.compileError);
  }

  lemma RedactTwice(v: CaseVerdict)
    ensures var r := Redact(v); Redact(r) == r && r.passed == v.passed && r.status == v.status
  {
    hide StatusText;
  }

  /** The overall verdict looks at the verdicts only. */
  lemma SameStatus(r: seq<CaseVerdict>, results: seq<CaseVerdict>, compileError: Option<string>)
    requires |r| == |results|
    requires forall i :: 0 <= i < |r| ==> r[i].passed == results[i].passed && r[i].status == results[i].status
    ensures OverallStatus(r, compileError) == OverallStatus(results, compileError)
  {
    assert (forall i :: 0 <= i < |r| ==> r[i].passed) <==> forall i :: 0 <= i < |results| ==> results[i].passed;
    assert (exists i :: 0 <= i < |r| && r[i].passed) <==> exists i :: 0 <= i < |results| && results[i].passed;
  }

  // ---------- Grading programs of the container sandbox ----------

  /** What the harness sees of a container run: no exit code, no duration, no memory. */
  function Seen(r: Container.ExecutionResult): Execution {
    Execution(r.status, None, r.stdout, r.stderr, 0, None, "")
  }

  function SeenOf(maxBytes: int, pieces: seq<string>, end: Container.Ending): Execution {
    var inputs := Capture.AsReads(Container.StreamOf(maxBytes, pieces, end));
    Seen(Container.ResultOf(Capture.ConsumeAll(Consumers.Fresh(maxBytes), inputs).0))
  }

  /** What a case is compared with: the output, or as much of it and of the marker as the cap allows. */
  function Compared(maxBytes: int, output: string): string {
    var room := Max(0, maxBytes);
    var kept := Fit(output, room);
    if Bytes(output) <= maxBytes then output
    else kept + Head(Consumers.LimitMarker(maxBytes), room - Bytes(kept))
  }

  function Head(s: string, n: int): string {
    if 0 <= n <= |s| then s[..n] else s
  }

  /**
    A case that runs in the container sandbox passes exactly when its capped output matches: a crash, a
    timeout or a failing daemon makes no difference.
   */
  lemma ContainerCasePassesIff(maxBytes: int, pieces: seq<string>, end: Container.Ending, tc: TestCase, s: Settings)
    requires pieces != [] || maxBytes >= 0
    ensures var o := Ran(SeenOf(maxBytes, pieces, end));
            && !FailsToCompile(o)
            && (Judge(tc, o, s).passed <==>
                  s.timeLimitMs >= 0
                  && Verifier.Verify(Compared(maxBytes, Concat(pieces)), tc.expectedOutput, s.mode, s.epsilon, s.parse))
  {
    hide Capture.AsReads, Capture.ConsumeAll, Container.StreamOf, Consumers.LimitMarker, Consumers.Decimal, Fit, Bytes;
    hide Concat, Verifier.Verify, Judge;
    Container.ExecuteReportsCappedOutput(maxBytes, pieces, end);
    var r := SeenOf(maxBytes, pieces, end);
    assert r.stdout == Compared(maxBytes, Concat(pieces));
    SeenPassesIff(r, tc, s);
  }

  lemma SeenPassesIff(r: Execution, tc: TestCase, s: Settings)
    requires r.status == ExecutionStatus.OutputLimitExceeded || r.status == ExecutionStatus.Completed
    requires r.exitCode == None && r.timeMs == 0 && r.peakMemory == None
    ensures !FailsToCompile(Ran(r))
    ensures Judge(tc, Ran(r), s).passed <==>
              s.timeLimitMs >= 0 && Verifier.Verify(r.stdout, tc.expectedOutput, s.mode, s.epsilon, s.parse)
  {
    hide Verifier.Verify, Judge;
    JudgeReports(tc, Ran(r), s);
  }

  /** So the verdict is the same however the container ended. */
  lemma ContainerVerdictIgnoresEnding(
    maxBytes: int, pieces: seq<string>, end: Container.Ending, other: Container.Ending, tc: TestCase, s: Settings)
    ensures Judge(tc, Ran(SeenOf(maxBytes, pieces, end)), s) == Judge(tc, Ran(SeenOf(maxBytes, pieces, other)), s)
  {
    hide Capture.AsReads, Capture.ConsumeAll, Container.StreamOf, Judge;
    Container.StreamReads(maxBytes, pieces, end);
    Container.StreamReads(maxBytes, pieces, other);
  }
}
