/**
  What a run of the subprocess sandbox's generator reports, told from the steps that were taken: its
  final status, the chunks it makes itself, and when its pumps stop and its loop times out.
 */
module ProcessSandboxReports {
  import opened Models
  import opened Utf8
  import opened StreamConsumers
  import opened StreamConsumerLaws
  import opened ProcessSandboxes
  import opened ProcessSandboxLaws

  // ---------- The final status ----------

  predicate TimedOut(labels: seq<Label>) {
    exists l :: l in labels && l.TimeOut?
  }

  predicate CompilerFailed(labels: seq<Label>) {
    exists l :: l in labels && l.CompileFails?
  }

  predicate Raised(labels: seq<Label>) {
    exists l :: l in labels && l.Raise?
  }

  predicate Finished(labels: seq<Label>) {
    exists l :: l in labels && l.Finish?
  }

  /** Every `Finish` step saw this exit code. */
  predicate ExitedWith(labels: seq<Label>, exitCode: Option<int>) {
    forall l :: l in labels && l.Finish? ==> l.exitCode == exitCode
  }

  /** The status of a run that waited for the program to end. */
  predicate FinishedAs(s: Run, maxBytes: int, labels: seq<Label>, status: ExecutionStatus) {
    && !CompilerFailed(labels) && !Raised(labels)
    && (TimedOut(labels) ==> status == TimeLimitExceeded)
    && (!TimedOut(labels) ==> s.stdoutEnded && s.stderrEnded)
    && (!TimedOut(labels) && OverCap(maxBytes, s.inputs) ==> status == OutputLimitExceeded)
    && (!TimedOut(labels) && !OverCap(maxBytes, s.inputs) ==>
          || (status == Completed && ExitedWith(labels, Some(0)))
          || (status == RuntimeError && !ExitedWith(labels, Some(0))))
  }

  /** The status of a run that failed before or beside that. */
  predicate FailedAs(labels: seq<Label>, status: ExecutionStatus) {
    || (status == CompileError && CompilerFailed(labels) && !Raised(labels))
    || (status == SystemError && Raised(labels) && !CompilerFailed(labels))
  }

  /** What the steps so far say about the phase. */
  predicate Told(s: Run, maxBytes: int, labels: seq<Label>) {
    match s.phase
    case Settling(timedOut) =>
      && !Finished(labels) && !CompilerFailed(labels) && !Raised(labels)
      && (timedOut <==> TimedOut(labels))
    case Reporting(outcome) => !Finished(labels) && FailedAs(labels, outcome)
    case Done(status) => if Finished(labels) then FinishedAs(s, maxBytes, labels, status) else FailedAs(labels, status)
    case _ => !Finished(labels) && !CompilerFailed(labels) && !Raised(labels) && !TimedOut(labels)
  }

  lemma OneLabelMore(labels: seq<Label>, l: Label)
    ensures TimedOut(labels + [l]) <==> TimedOut(labels) || l.TimeOut?
    ensures CompilerFailed(labels + [l]) <==> CompilerFailed(labels) || l.CompileFails?
    ensures Raised(labels + [l]) <==> Raised(labels) || l.Raise?
    ensures Finished(labels + [l]) <==> Finished(labels) || l.Finish?
    ensures forall e :: ExitedWith(labels + [l], e) <==> ExitedWith(labels, e) && (l.Finish? ==> l.exitCode == e)
  {
    var more := labels + [l];
    assert l in more && forall k :: k in more <==> k in labels || k == l;
  }

  lemma NotFinishedYet(labels: seq<Label>, exitCode: Option<int>)
    requires !Finished(labels)
    ensures ExitedWith(labels, exitCode)
  {
  }

  lemma FinishIsTold(s: Run, maxBytes: int, labels: seq<Label>, exitCode: Option<int>, report: string)
    requires Told(s, maxBytes, labels) && QueueInvariant(s) && CaptureInvariant(s, maxBytes) && s.phase.Settling?
    ensures Told(Next(s, Finish(exitCode, report)), maxBytes, labels + [Finish(exitCode, report)])
  {
    hide ConsumeAll, Wrapped, OverCap, TimedOut, CompilerFailed, Raised, Finished, ExitedWith;
    OneLabelMore(labels, Finish(exitCode, report));
    NotFinishedYet(labels, Some(0));
    FullIffOverCap(maxBytes, s.inputs);
  }

  lemma ReadIsTold(s: Run, maxBytes: int, labels: seq<Label>, input: Read)
    requires Told(s, maxBytes, labels) && Enabled(s, PumpReads(input))
    ensures Told(Next(s, PumpReads(input)), maxBytes, labels + [PumpReads(input)])
  {
    hide Consume, OverCap, TimedOut, CompilerFailed, Raised, Finished, ExitedWith;
    OneLabelMore(labels, PumpReads(input));
  }

  lemma TakeIsTold(s: Run, maxBytes: int, labels: seq<Label>, waited: real)
    requires Told(s, maxBytes, labels) && Enabled(s, Take(waited))
    ensures Told(Next(s, Take(waited)), maxBytes, labels + [Take(waited)])
  {
    hide OverCap, TimedOut, CompilerFailed, Raised, Finished, ExitedWith;
    OneLabelMore(labels, Take(waited));
  }

  lemma StepIsTold(s: Run, maxBytes: int, labels: seq<Label>, l: Label)
    requires Told(s, maxBytes, labels) && QueueInvariant(s) && CaptureInvariant(s, maxBytes) && Enabled(s, l)
    ensures Told(Next(s, l), maxBytes, labels + [l])
  {
    hide ReadPiece, TakeItem, FinalStatus, QueueInvariant, CaptureInvariant;
    hide OverCap, TimedOut, CompilerFailed, Raised, Finished, ExitedWith;
    match l
    case Finish(exitCode, report) => FinishIsTold(s, maxBytes, labels, exitCode, report);
    case PumpReads(input) => ReadIsTold(s, maxBytes, labels, input);
    case Take(waited) => TakeIsTold(s, maxBytes, labels, waited);
    case _ => OneLabelMore(labels, l);
  }

  lemma {:induction false} RunIsTold(maxBytes: int, timeout: real, labels: seq<Label>)
    requires Runs(Init(maxBytes, timeout), labels)
    ensures Told(After(Init(maxBytes, timeout), labels), maxBytes, labels)
  {
    if labels != [] {
      hide Told, Runs, After, Next, Enabled, QueueInvariant, YieldInvariant, CaptureInvariant;
      var (init, l) := (labels[..|labels| - 1], labels[|labels| - 1]);
      assert labels == init + [l];
      AfterSnoc(Init(maxBytes, timeout), init, l);
      RunIsTold(maxBytes, timeout, init);
      PumpsHoldFromStart(maxBytes, timeout, init);
      StepIsTold(After(Init(maxBytes, timeout), init), maxBytes, init, l);
    }
  }

  /**
    The final status of every run, told from its steps. A run that got as far as waiting for the program
    ends with the time limit exactly when its queue loop timed out, otherwise with the output limit
    exactly when the program's output is over the cap, otherwise as completed exactly when the exit code
    was 0, and with a runtime error for any other or unknown exit code. A run that did not get there
    ends with a compile error exactly when the compiler failed, and with a system error exactly when an
    exception was raised.
   */
  lemma FinalStatusIsTold(maxBytes: int, timeout: real, labels: seq<Label>)
    requires Runs(Init(maxBytes, timeout), labels) && After(Init(maxBytes, timeout), labels).phase.Done?
    ensures var s := After(Init(maxBytes, timeout), labels);
            var status := s.phase.status;
            if Finished(labels) then
              && (status == TimeLimitExceeded <==> TimedOut(labels))
              && (status == OutputLimitExceeded <==> !TimedOut(labels) && OverCap(maxBytes, s.inputs))
              && (status == Completed <==>
                    !TimedOut(labels) && !OverCap(maxBytes, s.inputs) && ExitedWith(labels, Some(0)))
              && (status == RuntimeError <==>
                    !TimedOut(labels) && !OverCap(maxBytes, s.inputs) && !ExitedWith(labels, Some(0)))
            else
              && (status == CompileError <==> CompilerFailed(labels))
              && (status == SystemError <==> Raised(labels))
              && (CompilerFailed(labels) || Raised(labels))
  {
    hide After, Runs, OverCap, TimedOut, CompilerFailed, Raised, Finished, ExitedWith;
    RunIsTold(maxBytes, timeout, labels);
  }

  // ---------- The chunks the generator makes itself ----------

  /** The chunk that a step of the generator adds beside the program's output. */
  function OwnChunk(l: Label): seq<Chunk> {
    match l
    case SkipCompile(notice) => [Chunk(Status, notice)]
    case StartCompile(notice) => [Chunk(Status, notice)]
    case CompileOk(notice) => [Chunk(Status, notice)]
    case CompileFails(message) => [Chunk(Error, message)]
    case TimeOut(notice) => [Chunk(Error, notice)]
    case Raise(message) => [Chunk(Error, message)]
    case Finish(_, report) => [Chunk(Complete, report)]
    case Report(report) => [Chunk(Complete, report)]
    case _ => []
  }

  function OwnChunks(labels: seq<Label>): seq<Chunk> {
    if labels == [] then [] else OwnChunks(labels[..|labels| - 1]) + OwnChunk(labels[|labels| - 1])
  }

  /** The chunks that are not program output. */
  function NonOutput(events: seq<Chunk>): seq<Chunk> {
    if events == [] then []
    else
      var x := events[|events| - 1];
      NonOutput(events[..|events| - 1]) + (if x.event == Stdout || x.event == Stderr then [] else [x])
  }

  lemma NonOutputSnoc(events: seq<Chunk>, x: Chunk)
    ensures NonOutput(events + [x]) == NonOutput(events) + (if x.event == Stdout || x.event == Stderr then [] else [x])
  {
    assert (events + [x])[..|events|] == events;
  }

  lemma StepAddsOwn(s: Run, l: Label)
    requires Enabled(s, l) && QueuedOutputOnly(s.queue)
    ensures NonOutput(Next(s, l).events) == NonOutput(s.events) + OwnChunk(l)
  {
    hide Consume, FinalStatus, NonOutput;
    OwnAdded(s.events, OwnChunk(l));
    match l
    case Take(_) =>
      if s.queue[0].Some? {
        NonOutputSnoc(s.events, s.queue[0].value);
      }
    case _ =>
  }

  lemma OwnAdded(events: seq<Chunk>, own: seq<Chunk>)
    requires |own| <= 1 && forall x :: x in own ==> x.event != Stdout && x.event != Stderr
    ensures NonOutput(events + own) == NonOutput(events) + own
    ensures events + [] == events && NonOutput(events) + [] == NonOutput(events)
  {
    if own == [] {
      assert events + own == events;
    } else {
      assert own == [own[0]];
      NonOutputSnoc(events, own[0]);
    }
  }

  /**
    Beside the program's output a run yields exactly the notices, error messages and final reports of its
    steps, each as a chunk of its kind and in order.
   */
  lemma {:induction false} OwnChunksAreYielded(maxBytes: int, timeout: real, labels: seq<Label>)
    requires Runs(Init(maxBytes, timeout), labels)
    ensures NonOutput(After(Init(maxBytes, timeout), labels).events) == OwnChunks(labels)
  {
    if labels != [] {
      hide Runs, After, Next, Enabled, NonOutput, OwnChunk, InOrder, FitsPhase, QueuedOutputOnly;
      var (init, l) := (labels[..|labels| - 1], labels[|labels| - 1]);
      assert labels == init + [l];
      AfterSnoc(Init(maxBytes, timeout), init, l);
      OwnChunksAreYielded(maxBytes, timeout, init);
      StartsInOrder(maxBytes, timeout);
      OrderHolds(Init(maxBytes, timeout), init);
      StepAddsOwn(After(Init(maxBytes, timeout), init), l);
    }
  }

  lemma StartsInOrder(maxBytes: int, timeout: real)
    ensures OrderInvariant(Init(maxBytes, timeout))
  {
  }

  // ---------- The deadline and the pumps ----------

  lemma TimeGoesOn(s: Run, l: Label)
    requires Enabled(s, l)
    ensures Next(s, l).now >= s.now && Next(s, l).timeout == s.timeout
    ensures l.TimeOut? ==> Next(s, l).now >= s.timeout
  {
    hide Consume, FinalStatus, Wrapped;
    TimeoutStays(s, l);
  }

  /** The queue loop never times out before the deadline. */
  lemma {:induction false} NoEarlyTimeout(maxBytes: int, timeout: real, labels: seq<Label>)
    requires Runs(Init(maxBytes, timeout), labels)
    ensures After(Init(maxBytes, timeout), labels).timeout == timeout
    ensures TimedOut(labels) ==> After(Init(maxBytes, timeout), labels).now >= timeout
  {
    if labels != [] {
      hide Runs, After, Next, Enabled, TimedOut;
      var (init, l) := (labels[..|labels| - 1], labels[|labels| - 1]);
      assert labels == init + [l];
      AfterSnoc(Init(maxBytes, timeout), init, l);
      NoEarlyTimeout(maxBytes, timeout, init);
      OneLabelMore(init, l);
      TimeGoesOn(After(Init(maxBytes, timeout), init), l);
    }
  }

  /** Once the output is over the cap a pump has ended, and after one more read both have. */
  predicate PumpsStop(s: Run, maxBytes: int) {
    && (OverCap(maxBytes, s.inputs) ==> s.stdoutEnded || s.stderrEnded)
    && (s.inputs != [] && OverCap(maxBytes, s.inputs[..|s.inputs| - 1]) ==> s.stdoutEnded && s.stderrEnded)
  }

  lemma NothingOverCap(maxBytes: int, timeout: real)
    ensures PumpsStop(Init(maxBytes, timeout), maxBytes)
  {
  }

  lemma FullStaysFull(c: ConsumerState, input: Read)
    ensures c.limitExceeded ==> Consume(c, input).0.limitExceeded
  {
    hide DecodeIgnore, LimitMarker;
  }

  lemma PumpsStopStep(s: Run, maxBytes: int, l: Label)
    requires PumpsStop(s, maxBytes) && CaptureInvariant(s, maxBytes) && Enabled(s, l)
    ensures PumpsStop(Next(s, l), maxBytes)
  {
    hide ConsumeAll, Consume, OverCap, FinalStatus;
    if l.PumpReads? {
      CaptureIsKept(s, l, maxBytes);
      FullStaysFull(s.consumer, l.input);
      FullIffOverCap(maxBytes, s.inputs);
      FullIffOverCap(maxBytes, s.inputs + [l.input]);
      assert (s.inputs + [l.input])[..|s.inputs|] == s.inputs;
    }
  }

  /** So after the piece that takes the output over the cap at most one more piece is read. */
  lemma {:induction false} OverflowStopsPumps(maxBytes: int, timeout: real, labels: seq<Label>)
    requires Runs(Init(maxBytes, timeout), labels)
    ensures PumpsStop(After(Init(maxBytes, timeout), labels), maxBytes)
  {
    if labels == [] {
      NothingOverCap(maxBytes, timeout);
    } else {
      hide Runs, After, Next, Enabled, PumpsStop, QueueInvariant, YieldInvariant, CaptureInvariant;
      var (init, l) := (labels[..|labels| - 1], labels[|labels| - 1]);
      assert labels == init + [l];
      AfterSnoc(Init(maxBytes, timeout), init, l);
      OverflowStopsPumps(maxBytes, timeout, init);
      PumpsHoldFromStart(maxBytes, timeout, init);
      PumpsStopStep(After(Init(maxBytes, timeout), init), maxBytes, l);
    }
  }
}
