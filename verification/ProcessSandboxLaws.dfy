/**
  Properties of every run of the subprocess sandbox's generator: the order of its events, delivery of
  everything the consumer accepted, the sentinel, and termination within a time bound.
 */
module ProcessSandboxLaws {
  import opened Models
  import opened Utf8
  import opened StreamConsumers
  import opened StreamConsumerLaws
  import opened ProcessSandboxes

  lemma {:induction false} AfterSnoc(s: Run, labels: seq<Label>, l: Label)
    ensures Runs(s, labels + [l]) <==> Runs(s, labels) && Enabled(After(s, labels), l)
    ensures Runs(s, labels + [l]) ==> After(s, labels + [l]) == Next(After(s, labels), l)
    decreases labels
  {
    hide Enabled, Next;
    if labels == [] {
      assert [] + [l] == [l];
      assert [l][1..] == [];
    } else {
      assert (labels + [l])[1..] == labels[1..] + [l];
      if Enabled(s, labels[0]) {
        AfterSnoc(Next(s, labels[0]), labels[1..], l);
      }
    }
  }

  // ---------- Order of events ----------

  function Rank(e: Event): nat {
    match e
    case Status => 0
    case Stdout => 1
    case Stderr => 1
    case Error => 2
    case Complete => 3
  }

  /** Status chunks, then program output, then errors, then the final chunk. */
  predicate InOrder(events: seq<Chunk>) {
    forall i, j :: 0 <= i < j < |events| ==> Rank(events[i].event) <= Rank(events[j].event)
  }

  predicate AtMost(events: seq<Chunk>, rank: int) {
    forall i :: 0 <= i < |events| ==> Rank(events[i].event) <= rank
  }

  predicate EndsInComplete(events: seq<Chunk>) {
    && events != []
    && events[|events| - 1].event == Complete
    && AtMost(events[..|events| - 1], 2)
  }

  predicate OrderInvariant(s: Run) {
    InOrder(s.events) && QueuedOutputOnly(s.queue) && FitsPhase(s.events, s.phase)
  }

  lemma OneMore(events: seq<Chunk>, x: Chunk)
    requires InOrder(events) && AtMost(events, Rank(x.event))
    ensures InOrder(events + [x]) && AtMost(events + [x], Rank(x.event))
    ensures x.event == Complete && AtMost(events, 2) ==> EndsInComplete(events + [x])
  {
    assert (events + [x])[..|events|] == events;
  }

  lemma ConsumedIsOutput(c: ConsumerState, r: Read)
    ensures var o := Consume(c, r).1; o.Some? ==> Rank(o.value.event) == 1
  {
    hide DecodeIgnore, LimitMarker;
  }

  predicate QueuedOutputOnly(queue: seq<Option<Chunk>>) {
    forall i :: 0 <= i < |queue| && queue[i].Some? ==> Rank(queue[i].value.event) == 1
  }

  predicate FitsPhase(events: seq<Chunk>, phase: Phase) {
    match phase
    case Preparing => events == []
    case Compiling => AtMost(events, 0)
    case Launching => AtMost(events, 0)
    case Draining => AtMost(events, 1)
    case Settling(_) => AtMost(events, 2)
    case Reporting(_) => AtMost(events, 2)
    case Done(_) => EndsInComplete(events)
  }

  lemma OwnYieldKeepsOrder(s: Run, event: Event, data: string, next: Phase)
    requires OrderInvariant(s) && AtMost(s.events, Rank(event)) && AtMost(s.events, 2)
    requires next.Compiling? || next.Launching? ==> event == Status
    requires next.Settling? || next.Reporting? ==> event == Error
    requires next.Done? ==> event == Complete
    requires !next.Preparing? && !next.Draining?
    ensures OrderInvariant(Yield(s, event, data, next))
  {
    hide InOrder, AtMost, EndsInComplete;
    OneMore(s.events, Chunk(event, data));
  }

  lemma PumpKeepsOrder(s: Run, l: Label)
    requires OrderInvariant(s) && Enabled(s, l) && (l.PumpReads? || l.PumpEnds? || l.Idle?)
    ensures OrderInvariant(Next(s, l))
  {
    hide Consume, FitsPhase, InOrder;
    if l.PumpReads? {
      ConsumedIsOutput(s.consumer, l.input);
    }
  }

  lemma TakeKeepsOrder(s: Run, waited: real)
    requires OrderInvariant(s) && s.queue != [] && s.phase == Draining
    ensures OrderInvariant(TakeItem(s, waited))
  {
    if s.queue[0].Some? {
      OneMore(s.events, s.queue[0].value);
    }
  }

  lemma OrderIsKept(s: Run, l: Label)
    requires OrderInvariant(s) && Enabled(s, l)
    ensures OrderInvariant(Next(s, l))
  {
    hide Consume, InOrder, ReadPiece, TakeItem, EndPump, QueuedOutputOnly;
    assert FitsPhase(s.events, s.phase);
    match l
    case SkipCompile(notice) => OwnYieldKeepsOrder(s, Status, notice, Launching);
    case StartCompile(notice) => OwnYieldKeepsOrder(s, Status, notice, Compiling);
    case CompileOk(notice) => OwnYieldKeepsOrder(s, Status, notice, Launching);
    case CompileFails(message) => OwnYieldKeepsOrder(s, Error, message, Reporting(CompileError));
    case Launch =>
    case PumpReads(input) => PumpKeepsOrder(s, l);
    case PumpEnds(_) => PumpKeepsOrder(s, l);
    case Take(waited) => TakeKeepsOrder(s, waited);
    case TimeOut(notice) => OwnYieldKeepsOrder(s, Error, notice, Settling(true));
    case Finish(exitCode, report) =>
      OwnYieldKeepsOrder(s, Complete, report, Done(FinalStatus(s, s.phase.timedOut, exitCode)));
    case Raise(message) => OwnYieldKeepsOrder(s, Error, message, Reporting(SystemError));
    case Report(report) => OwnYieldKeepsOrder(s, Complete, report, Done(s.phase.outcome));
    case Idle(_) => PumpKeepsOrder(s, l);
  }

  lemma {:induction false} OrderHolds(s: Run, labels: seq<Label>)
    requires OrderInvariant(s) && Runs(s, labels)
    ensures OrderInvariant(After(s, labels))
    decreases labels
  {
    hide OrderInvariant, Enabled, Next;
    if labels != [] {
      OrderIsKept(s, labels[0]);
      OrderHolds(Next(s, labels[0]), labels[1..]);
    }
  }

  /**
    Whatever the compiler, the program, the scheduler and the clock do, the yielded chunks are status
    chunks, then output, then errors, then the final chunk; the final chunk is there exactly when the
    run is done, and it is the last one.
   */
  lemma EveryTraceIsOrdered(maxBytes: int, timeout: real, labels: seq<Label>)
    requires Runs(Init(maxBytes, timeout), labels)
    ensures var s := After(Init(maxBytes, timeout), labels);
            && InOrder(s.events)
            && (s.phase.Done? <==> exists i :: 0 <= i < |s.events| && s.events[i].event == Complete)
            && (s.phase.Done? ==> EndsInComplete(s.events))
  {
    OrderHolds(Init(maxBytes, timeout), labels);
    var s := After(Init(maxBytes, timeout), labels);
    if s.phase.Done? {
      assert s.events[|s.events| - 1].event == Complete;
    }
  }

  /** Hence whoever stops at an error chunk has already seen all program output. */
  lemma {:induction false} NoOutputAfterError(events: seq<Chunk>, i: nat)
    requires InOrder(events) && i < |events| && Rank(events[i].event) >= 2
    ensures TextOf(events, Stdout) == TextOf(events[..i], Stdout)
    ensures TextOf(events, Stderr) == TextOf(events[..i], Stderr)
  {
    hide TextOf;
    var late := events[i..];
    assert events == events[..i] + late;
    forall k | 0 <= k < |late|
      ensures Rank(late[k].event) >= 2
    {
      assert late[k] == events[i + k];
    }
    TextOfSplits(events[..i], late, Stdout);
    TextOfSplits(events[..i], late, Stderr);
    TextOfNone(late, Stdout);
    TextOfNone(late, Stderr);
  }

  // ---------- The pumps, the queue and the sentinel ----------

  function Wrapped(chunks: seq<Chunk>): seq<Option<Chunk>> {
    seq(|chunks|, i requires 0 <= i < |chunks| => Some(chunks[i]))
  }

  function EndedPumps(s: Run): nat {
    (if s.stdoutEnded then 1 else 0) + (if s.stderrEnded then 1 else 0)
  }

  /** The sentinel has been taken from the queue. */
  predicate Drained(s: Run) {
    s.phase == Settling(false)
  }

  function Sentinel(s: Run): seq<Option<Chunk>> {
    if EndedPumps(s) == 2 then [None] else []
  }

  /** The generator has taken the sentinel, and with it every chunk. */
  predicate Exhausted(s: Run) {
    EndedPumps(s) == 2 && s.taken == |s.log| && s.queue == []
  }

  predicate PumpingFromLaunch(s: Run) {
    && (s.phase.Preparing? || s.phase.Compiling? || s.phase.Launching? ==> !s.pumping)
    && (s.phase == Draining || s.phase.Settling? ==> s.pumping)
  }

  /**
    What the queue holds, whatever the generator is doing: the accepted chunks not yet yielded, then the
    sentinel once both pumps are done; or nothing more, once the sentinel has been taken.
   */
  predicate QueueInvariant(s: Run) {
    && s.pumpsDone == EndedPumps(s)
    && s.taken <= |s.log|
    && (!s.pumping ==> s.inputs == [] && s.log == [] && s.queue == [] && EndedPumps(s) == 0)
    && PumpingFromLaunch(s)
    && (Exhausted(s) || s.queue == Wrapped(s.log[s.taken..]) + Sentinel(s))
    && (Exhausted(s) ==> s.phase != Draining && s.phase != Settling(true))
    && (Drained(s) ==> Exhausted(s))
  }

  /** The generator has yielded its status chunks and a prefix of the accepted chunks. */
  predicate YieldInvariant(s: Run) {
    && s.taken <= |s.log|
    && AtMost(s.head, 0)
    && (s.phase.Preparing? || s.phase.Compiling? || s.phase.Launching? ==> s.events == s.head && s.taken == 0)
    && (s.phase == Draining || Drained(s) ==> s.events == s.head + s.log[..s.taken])
    && (s.phase == Settling(true) ==>
          && s.events != []
          && s.events[|s.events| - 1].event == Error
          && s.events[..|s.events| - 1] == s.head + s.log[..s.taken])
  }

  /** Consumer and log are the outcome of the recorded pieces, none of them empty. */
  predicate CaptureInvariant(s: Run, maxBytes: int) {
    && ConsumeAll(Fresh(maxBytes), s.inputs) == (s.consumer, s.log)
    && forall i :: 0 <= i < |s.inputs| ==> s.inputs[i].text != ""
  }

  lemma CaptureIsKept(s: Run, l: Label, maxBytes: int)
    requires CaptureInvariant(s, maxBytes) && Enabled(s, l)
    ensures CaptureInvariant(Next(s, l), maxBytes)
  {
    hide Consume, ConsumeAll;
    if l.PumpReads? {
      ConsumeAllSnoc(Fresh(maxBytes), s.inputs, l.input);
    }
  }

  lemma ReadKeepsQueue(s: Run, input: Read)
    requires QueueInvariant(s) && s.pumping && !Ended(s, input.fromStderr)
    ensures QueueInvariant(ReadPiece(s, input))
  {
    hide Consume;
    var (c, o) := Consume(s.consumer, input);
    assert (s.log + Emitted(o))[s.taken..] == s.log[s.taken..] + Emitted(o);
    assert Wrapped(s.log[s.taken..] + Emitted(o)) == Wrapped(s.log[s.taken..]) + Queued(o);
    assert s.queue + Queued(o) == Wrapped((s.log + Emitted(o))[s.taken..]) + [];
  }

  lemma TakeKeepsQueue(s: Run, waited: real)
    requires QueueInvariant(s) && s.phase == Draining && s.queue != []
    ensures QueueInvariant(TakeItem(s, waited))
  {
    if s.taken < |s.log| {
      assert s.queue[0] == Some(s.log[s.taken]);
      assert Wrapped(s.log[s.taken..])[1..] == Wrapped(s.log[s.taken + 1..]);
    } else {
      assert s.queue[0] == None;
    }
  }

  lemma QueueIsKept(s: Run, l: Label)
    requires QueueInvariant(s) && Enabled(s, l)
    ensures QueueInvariant(Next(s, l))
  {
    hide Consume, ReadPiece, TakeItem, Wrapped;
    match l
    case PumpReads(input) => ReadKeepsQueue(s, input);
    case Take(waited) => TakeKeepsQueue(s, waited);
    case Launch =>
      assert s.log[s.taken..] == [];
      NothingWrapped();
    case _ =>
  }

  lemma NothingWrapped()
    ensures Wrapped([]) == []
  {
  }

  lemma ReadKeepsYields(s: Run, input: Read)
    requires YieldInvariant(s)
    ensures YieldInvariant(ReadPiece(s, input))
  {
    hide Consume, AtMost, Rank;
    var o := Consume(s.consumer, input).1;
    assert (s.log + Emitted(o))[..s.taken] == s.log[..s.taken];
  }

  lemma TakeKeepsYields(s: Run, waited: real)
    requires QueueInvariant(s) && YieldInvariant(s) && s.phase == Draining && s.queue != []
    ensures YieldInvariant(TakeItem(s, waited))
  {
    hide AtMost;
    if s.taken < |s.log| {
      assert s.queue[0] == Some(s.log[s.taken]);
      assert s.log[..s.taken + 1] == s.log[..s.taken] + [s.log[s.taken]];
      assert s.head + s.log[..s.taken] + [s.log[s.taken]] == s.head + s.log[..s.taken + 1];
    } else {
      assert s.queue[0] == None;
    }
  }

  lemma StatusKeepsYields(s: Run, notice: string, next: Phase)
    requires YieldInvariant(s) && (s.phase.Preparing? || s.phase.Compiling?) && (next.Compiling? || next.Launching?)
    ensures YieldInvariant(Yield(s, Status, notice, next))
  {
  }

  lemma TimeOutKeepsYields(s: Run, notice: string)
    requires YieldInvariant(s) && s.phase == Draining
    ensures YieldInvariant(Next(s, TimeOut(notice)))
  {
    hide AtMost;
    assert Next(s, TimeOut(notice)).events[..|s.events|] == s.events;
  }

  lemma LaunchKeepsYields(s: Run)
    requires YieldInvariant(s) && s.phase == Launching
    ensures YieldInvariant(Next(s, Launch))
  {
    hide AtMost;
    assert s.log[..0] == [];
    assert s.head + [] == s.head;
  }

  lemma YieldIsKept(s: Run, l: Label)
    requires QueueInvariant(s) && YieldInvariant(s) && Enabled(s, l)
    ensures YieldInvariant(Next(s, l))
  {
    hide ReadPiece, TakeItem, QueueInvariant, AtMost;
    match l
    case PumpReads(input) => ReadKeepsYields(s, input);
    case Take(waited) => TakeKeepsYields(s, waited);
    case SkipCompile(notice) => StatusKeepsYields(s, notice, Launching);
    case StartCompile(notice) => StatusKeepsYields(s, notice, Compiling);
    case CompileOk(notice) => StatusKeepsYields(s, notice, Launching);
    case TimeOut(notice) => TimeOutKeepsYields(s, notice);
    case Launch => LaunchKeepsYields(s);
    case _ =>
  }

  lemma {:induction false} PumpsHold(s: Run, labels: seq<Label>, maxBytes: int)
    requires Runs(s, labels)
    requires QueueInvariant(s) && YieldInvariant(s) && CaptureInvariant(s, maxBytes)
    ensures var s' := After(s, labels); QueueInvariant(s') && YieldInvariant(s') && CaptureInvariant(s', maxBytes)
    decreases labels
  {
    hide QueueInvariant, YieldInvariant, CaptureInvariant, Enabled, Next;
    if labels != [] {
      QueueIsKept(s, labels[0]);
      YieldIsKept(s, labels[0]);
      CaptureIsKept(s, labels[0], maxBytes);
      PumpsHold(Next(s, labels[0]), labels[1..], maxBytes);
    }
  }

  lemma PumpsHoldFromStart(maxBytes: int, timeout: real, labels: seq<Label>)
    requires Runs(Init(maxBytes, timeout), labels)
    ensures var s := After(Init(maxBytes, timeout), labels);
            QueueInvariant(s) && YieldInvariant(s) && CaptureInvariant(s, maxBytes)
  {
    hide After, Runs;
    PumpsHold(Init(maxBytes, timeout), labels, maxBytes);
  }

  /**
    In every reachable state, also after a timeout or an exception while the pumps go on: at most two
    pumps are counted; the queue without its sentinel is exactly the accepted chunks not yet yielded;
    a sentinel is the last item and both pumps are done; and it is there from the moment both are done
    until the generator takes it, after which nothing is ever queued again.
   */
  lemma SentinelIsLastAndUnique(maxBytes: int, timeout: real, labels: seq<Label>)
    requires Runs(Init(maxBytes, timeout), labels)
    ensures var s := After(Init(maxBytes, timeout), labels);
            var both := s.stdoutEnded && s.stderrEnded;
            && s.pumpsDone <= 2 && (s.pumpsDone == 2 <==> both)
            && s.taken <= |s.log|
            && (forall i :: 0 <= i < |s.queue| ==>
                  if i < |s.log| - s.taken then s.queue[i] == Some(s.log[s.taken + i])
                  else both && i == |s.queue| - 1 && s.queue[i] == None)
            && (both && (s.phase == Draining || s.phase == Settling(true)) ==>
                  s.queue != [] && s.queue[|s.queue| - 1] == None)
            && (!both ==> |s.queue| == |s.log| - s.taken)
            && (|s.queue| == |s.log| - s.taken + (if both then 1 else 0)
                || (s.queue == [] && s.taken == |s.log| && both))
            && (Drained(s) ==> both && s.queue == [] && s.taken == |s.log|)
  {
    hide After, Runs, YieldInvariant, CaptureInvariant;
    PumpsHoldFromStart(maxBytes, timeout, labels);
  }

  /**
    However the pumps and the loop interleave, a run whose loop ends without the timeout has yielded,
    after its status chunks, exactly the chunks the consumer returned, in consumption order; the text
    of each stream is the consumer's text, with the marker or the notice behind the stream that
    overflowed.
   */
  lemma DrainedRunYieldsEverything(maxBytes: int, timeout: real, labels: seq<Label>)
    requires Runs(Init(maxBytes, timeout), labels) && Drained(After(Init(maxBytes, timeout), labels))
    ensures var s := After(Init(maxBytes, timeout), labels);
            var over := OverflowedBy(s.consumer, s.log);
            && s.stdoutEnded && s.stderrEnded
            && s.events == s.head + ConsumeAll(Fresh(maxBytes), s.inputs).1
            && AtMost(s.head, 0)
            && TextOf(s.events, Stdout)
               == Concat(s.consumer.stdout) + (if over == Some(Stdout) then LimitMarker(maxBytes) else "")
            && TextOf(s.events, Stderr)
               == Concat(s.consumer.stderr) + (if over == Some(Stderr) then STDERR_NOTICE else "")
            && (s.consumer.limitExceeded <==> over != None)
  {
    hide LimitMarker, After, Runs, ConsumeAll, Enabled, Next, TextOf, Concat, Bytes, Wrapped;
    var s := After(Init(maxBytes, timeout), labels);
    PumpsHoldFromStart(maxBytes, timeout, labels);
    RunKeepsLedger(maxBytes, s.inputs);
    assert s.log[..s.taken] == s.log;
    forall e | e == Stdout || e == Stderr
      ensures TextOf(s.events, e) == TextOf(s.log, e)
    {
      TextOfSplits(s.head, s.log, e);
      TextOfNone(s.head, e);
    }
  }

  /** The final chunk reports the output limit exactly when the yielded chunks carry a marker or a notice. */
  lemma StatusReportsOverflow(maxBytes: int, timeout: real, labels: seq<Label>, exitCode: Option<int>, report: string)
    requires Runs(Init(maxBytes, timeout), labels) && Drained(After(Init(maxBytes, timeout), labels))
    ensures var s := After(Init(maxBytes, timeout), labels);
            Next(s, Finish(exitCode, report)).phase == Done(OutputLimitExceeded)
            <==> OverflowedBy(s.consumer, s.log) != None
  {
    hide After, Runs, ConsumeAll, Ledger;
    DrainedRunYieldsEverything(maxBytes, timeout, labels);
  }

  /** A run that hits the timeout has yielded an initial part of the accepted chunks, then the error chunk. */
  lemma TimedOutRunYieldsPrefix(maxBytes: int, timeout: real, labels: seq<Label>)
    requires Runs(Init(maxBytes, timeout), labels) && After(Init(maxBytes, timeout), labels).phase == Settling(true)
    ensures var s := After(Init(maxBytes, timeout), labels);
            var accepted := ConsumeAll(Fresh(maxBytes), s.inputs).1;
            && s.events != [] && s.events[|s.events| - 1].event == Error
            && s.taken <= |accepted|
            && s.events[..|s.events| - 1] == s.head + accepted[..s.taken]
  {
    hide After, Runs, ConsumeAll;
    PumpsHoldFromStart(maxBytes, timeout, labels);
  }

  /** The pieces read from standard output. */
  function StdoutPieces(inputs: seq<Read>): seq<string> {
    if inputs == [] then [] else (if inputs[0].fromStderr then [] else [inputs[0].text]) + StdoutPieces(inputs[1..])
  }

  lemma {:induction false} SilentStderr(inputs: seq<Read>)
    requires forall i :: 0 <= i < |inputs| ==> !inputs[i].fromStderr
    ensures inputs == StdoutReads(StdoutPieces(inputs))
  {
    if inputs != [] {
      SilentStderr(inputs[1..]);
      assert inputs == [inputs[0]] + inputs[1..];
      assert StdoutReads(StdoutPieces(inputs)) == [inputs[0]] + StdoutReads(StdoutPieces(inputs[1..]));
    }
  }

  /**
    For a program that writes `output` to standard output only, a run whose loop ends without the
    timeout has streamed one function of `output`: its longest fitting prefix, and the marker if the
    output is over the cap. The pumps stop reading only at the end of the stream or at the cap.
   */
  lemma StreamedStdoutIsCapped(maxBytes: int, timeout: real, labels: seq<Label>, output: string)
    requires maxBytes >= 0
    requires Runs(Init(maxBytes, timeout), labels) && Drained(After(Init(maxBytes, timeout), labels))
    requires var s := After(Init(maxBytes, timeout), labels);
             var text := Concat(StdoutPieces(s.inputs));
             && (forall i :: 0 <= i < |s.inputs| ==> !s.inputs[i].fromStderr)
             && text <= output
             && (!s.consumer.limitExceeded ==> text == output)
    ensures var s := After(Init(maxBytes, timeout), labels);
            TextOf(s.events, Stdout)
            == Fit(output, maxBytes) + (if Bytes(output) > maxBytes then LimitMarker(maxBytes) else "")
  {
    hide LimitMarker, After, Runs, ConsumeAll, Fit, Bytes, TextOf, Concat;
    var s := After(Init(maxBytes, timeout), labels);
    var pieces := StdoutPieces(s.inputs);
    var text := Concat(pieces);
    DrainedRunYieldsEverything(maxBytes, timeout, labels);
    PumpsHoldFromStart(maxBytes, timeout, labels);
    SilentStderr(s.inputs);
    StdoutIsChunkingIndependent(maxBytes, pieces);
    StdoutLog(Fresh(maxBytes), s.inputs);
    RunKeepsLedger(maxBytes, s.inputs);
    var rest := output[|text|..];
    assert output == text + rest;
    EncodeSplits(text, rest);
    if s.consumer.limitExceeded {
      FitIgnoresRest(text, rest, maxBytes);
    }
  }

  // ---------- Termination and time ----------

  /** Every round but the last one yields a chunk, and each round waits at most until the deadline or 0.01 s. */
  predicate LoopInvariant(s: Run) {
    && s.idle >= 0.0
    && (!s.pumping ==> s.iterations == 0 && s.taken == 0)
    && (s.pumping && s.phase == Draining ==> s.iterations == s.taken)
    && (s.phase.Settling? && s.pumping ==> s.iterations == s.taken + 1)
    && (s.pumping ==>
          s.now <= MaxReal(s.launchedAt, s.timeout) + 0.01 * (s.iterations as real) + s.idle)
  }

  lemma LoopInvariantIsKept(s: Run, l: Label)
    requires LoopInvariant(s) && PumpingFromLaunch(s) && Enabled(s, l)
    ensures LoopInvariant(Next(s, l))
  {
    hide Consume, Wrapped;
    if l.Take? || l.TimeOut? {
      var waited := if l.Take? then l.waited else Remaining(s);
      WaitIsBounded(s.now, waited, s.timeout, s.launchedAt, s.iterations, s.idle);
    }
  }

  lemma PumpsFromLaunch(s: Run)
    requires QueueInvariant(s)
    ensures PumpingFromLaunch(s)
  {
  }

  lemma WaitIsBounded(now: real, waited: real, timeout: real, launchedAt: real, rounds: nat, idle: real)
    requires now <= MaxReal(launchedAt, timeout) + 0.01 * (rounds as real) + idle
    requires waited <= MaxReal(0.01, timeout - now) && idle >= 0.0
    ensures now + waited <= MaxReal(launchedAt, timeout) + 0.01 * ((rounds + 1) as real) + idle
  {
    assert (rounds + 1) as real == rounds as real + 1.0;
    assert 0.01 * ((rounds + 1) as real) == 0.01 * (rounds as real) + 0.01;
  }

  lemma {:induction false} LoopInvariantHolds(s: Run, labels: seq<Label>)
    requires LoopInvariant(s) && QueueInvariant(s) && Runs(s, labels)
    ensures LoopInvariant(After(s, labels))
    decreases labels
  {
    hide LoopInvariant, QueueInvariant, PumpingFromLaunch, Enabled, Next;
    if labels != [] {
      PumpsFromLaunch(s);
      LoopInvariantIsKept(s, labels[0]);
      QueueIsKept(s, labels[0]);
      LoopInvariantHolds(Next(s, labels[0]), labels[1..]);
    }
  }

  /**
    Even against a program that never stops printing, the queue loop goes around at most
    `maxBytes + 2` times, because every accepted chunk pays at least one byte of the cap; so with
    time passing only in queue waits it ends by the timeout plus 0.01 s for each of those rounds.
   */
  lemma QueueLoopIsBounded(maxBytes: int, timeout: real, labels: seq<Label>)
    requires Runs(Init(maxBytes, timeout), labels)
    requires var s := After(Init(maxBytes, timeout), labels); s.phase == Draining || s.phase.Settling?
    ensures var s := After(Init(maxBytes, timeout), labels);
            && s.iterations <= Max(0, maxBytes) + 2
            && s.now <= MaxReal(s.launchedAt, timeout) + 0.01 * ((Max(0, maxBytes) + 2) as real) + s.idle
  {
    hide After, Runs, ConsumeAll, Consume, TextLedger;
    var s := After(Init(maxBytes, timeout), labels);
    PumpsHoldFromStart(maxBytes, timeout, labels);
    LoopInvariantHolds(Init(maxBytes, timeout), labels);
    TimeoutIsFixed(Init(maxBytes, timeout), labels);
    RunKeepsLedger(maxBytes, s.inputs);
    assert s.taken <= Max(0, maxBytes) + 1;
    assert s.iterations as real <= (Max(0, maxBytes) + 2) as real;
  }

  lemma TimeoutStays(s: Run, l: Label)
    requires Enabled(s, l)
    ensures Next(s, l).timeout == s.timeout
  {
    hide Consume, FinalStatus;
  }

  lemma {:induction false} TimeoutIsFixed(s: Run, labels: seq<Label>)
    requires Runs(s, labels)
    ensures After(s, labels).timeout == s.timeout
    decreases labels
  {
    hide Next, Enabled;
    if labels != [] {
      TimeoutStays(s, labels[0]);
      TimeoutIsFixed(Next(s, labels[0]), labels[1..]);
    }
  }
}
