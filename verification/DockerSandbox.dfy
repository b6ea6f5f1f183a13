/**
  The container sandbox: the chunk stream it yields for a Python program, and `execute`, which runs
  a second byte-capped consumer over the already capped stream. The container runs with a terminal,
  so the first consumer only ever sees standard output.
 */
module DockerSandboxes {
  import opened Models
  import opened Utf8
  import opened StreamConsumers
  import opened StreamConsumerLaws

  /** What follows the program's output: a container that was inspected, or a failing daemon, which may
      come after the timeout notice. */
  datatype Ending =
    | Inspected(timeoutNotice: Option<string>, report: string)
    | DaemonFailed(timeoutNotice: Option<string>, message: string)

  datatype ExecutionResult = ExecutionResult(status: ExecutionStatus, stdout: string, stderr: string)

  function Epilogue(end: Ending): seq<Chunk> {
    match end
    case DaemonFailed(notice, message) => Notices(notice) + [Chunk(Error, message)]
    case Inspected(notice, report) => Notices(notice) + [Chunk(Complete, report)]
  }

  function Notices(notice: Option<string>): seq<Chunk> {
    if notice.Some? then [Chunk(Error, notice.value)] else []
  }

  /** The specification of the stream: a status chunk, the capped output, the epilogue. */
  function StreamOf(maxBytes: int, pieces: seq<string>, end: Ending): seq<Chunk> {
    [Chunk(Status, "Initializing isolated sandbox container...")]
    + ConsumeAll(Fresh(maxBytes), StdoutReads(pieces)).1
    + Epilogue(end)
  }

  /**
    The polling loop stops at the cap, or at any moment because of the timeout or the container's exit
    (after `polled` pieces); the pieces that are still queued are then handed to the consumer as well.
    `pieces` are the decoded socket reads, in order.
   */
  method StreamExecute(maxBytes: int, pieces: seq<string>, polled: nat, end: Ending) returns (events: seq<Chunk>)
    ensures events == StreamOf(maxBytes, pieces, end)
  {
    hide ConsumeAll, OnStdout, OnStderr, Epilogue, StdoutReads, OutputSoFar;
    var consumer := new StreamConsumer(maxBytes);
    events := [Chunk(Status, "Initializing isolated sandbox container...")];
    ghost var head := events;
    var i := 0;
    var r;
    NoPieces(head, maxBytes);
    assert pieces[..0] == [];
    while i < |pieces| && i < polled && !consumer.limitExceeded
      invariant i <= |pieces|
      invariant (consumer.State(), events) == OutputSoFar(head, maxBytes, pieces[..i])
    {
      r := consumer.ConsumeStdout(pieces[i]);
      NextPiece(head, maxBytes, pieces, i);
      events := events + Emitted(r);
      i := i + 1;
    }
    while i < |pieces|
      invariant i <= |pieces|
      invariant (consumer.State(), events) == OutputSoFar(head, maxBytes, pieces[..i])
    {
      r := consumer.ConsumeStdout(pieces[i]);
      NextPiece(head, maxBytes, pieces, i);
      events := events + Emitted(r);
      i := i + 1;
    }
    assert pieces[..i] == pieces;
    AllPieces(head, maxBytes, pieces);
    events := events + Epilogue(end);
  }

  ghost function OutputSoFar(head: seq<Chunk>, maxBytes: int, pieces: seq<string>): (ConsumerState, seq<Chunk>) {
    var (c, log) := ConsumeAll(Fresh(maxBytes), StdoutReads(pieces));
    (c, head + log)
  }

  lemma NoPieces(head: seq<Chunk>, maxBytes: int)
    ensures OutputSoFar(head, maxBytes, []) == (Fresh(maxBytes), head)
  {
    assert StdoutReads([]) == [] && head + [] == head;
  }

  lemma AllPieces(head: seq<Chunk>, maxBytes: int, pieces: seq<string>)
    ensures OutputSoFar(head, maxBytes, pieces).1 == head + ConsumeAll(Fresh(maxBytes), StdoutReads(pieces)).1
  {
    hide ConsumeAll;
  }

  lemma NextPiece(head: seq<Chunk>, maxBytes: int, pieces: seq<string>, i: nat)
    requires i < |pieces|
    ensures var (c, events) := OutputSoFar(head, maxBytes, pieces[..i]);
            var (c', o) := OnStdout(c, pieces[i]);
            OutputSoFar(head, maxBytes, pieces[..i + 1]) == (c', events + Emitted(o))
  {
    hide OnStdout;
    assert StdoutReads(pieces[..i + 1]) == StdoutReads(pieces[..i]) + [Read(false, pieces[i])];
    ConsumeAllSnoc(Fresh(maxBytes), StdoutReads(pieces[..i]), Read(false, pieces[i]));
    var (c, log) := ConsumeAll(Fresh(maxBytes), StdoutReads(pieces[..i]));
    var (c', o) := OnStdout(c, pieces[i]);
    assert head + (log + Emitted(o)) == head + log + Emitted(o);
  }

  function ResultOf(c: ConsumerState): ExecutionResult {
    ExecutionResult(if c.limitExceeded then OutputLimitExceeded else Completed, Concat(c.stdout), Concat(c.stderr))
  }

  lemma AsReadsOne(x: Chunk)
    ensures AsReads([x]) == if x.event == Stdout || x.event == Stderr then [Read(x.event == Stderr, x.data)] else []
  {
  }

  /** `execute`: a second consumer over the stream; other events are skipped. */
  method Execute(maxBytes: int, stream: seq<Chunk>) returns (result: ExecutionResult)
    ensures result == ResultOf(ConsumeAll(Fresh(maxBytes), AsReads(stream)).0)
  {
    hide OnStdout, OnStderr;
    var consumer := new StreamConsumer(maxBytes);
    var r;
    for i := 0 to |stream|
      invariant consumer.State() == ConsumeAll(Fresh(maxBytes), AsReads(stream[..i])).0
    {
      var chunk := stream[i];
      var before := AsReads(stream[..i]);
      assert before + [] == before;
      AsReadsSplits(stream[..i], [chunk]);
      assert stream[..i + 1] == stream[..i] + [chunk];
      AsReadsOne(chunk);
      if chunk.event == Stdout {
        ConsumeAllSnoc(Fresh(maxBytes), before, Read(false, chunk.data));
        r := consumer.ConsumeStdout(chunk.data);
      } else if chunk.event == Stderr {
        ConsumeAllSnoc(Fresh(maxBytes), before, Read(true, chunk.data));
        r := consumer.ConsumeStderr(chunk.data);
      }
    }
    assert stream[..|stream|] == stream;
    var status := if consumer.limitExceeded then OutputLimitExceeded else Completed;
    result := ExecutionResult(status, consumer.FullStdout(), consumer.FullStderr());
  }

  lemma OnlyStdout(maxBytes: int, pieces: seq<string>)
    ensures forall x :: x in ConsumeAll(Fresh(maxBytes), StdoutReads(pieces)).1 ==> x.event == Stdout
  {
    hide ConsumeAll;
    StdoutLog(Fresh(maxBytes), StdoutReads(pieces));
  }

  lemma StreamReads(maxBytes: int, pieces: seq<string>, end: Ending)
    ensures AsReads(StreamOf(maxBytes, pieces, end)) == AsReads(ConsumeAll(Fresh(maxBytes), StdoutReads(pieces)).1)
  {
    hide ConsumeAll;
    var log := ConsumeAll(Fresh(maxBytes), StdoutReads(pieces)).1;
    var first := [Chunk(Status, "Initializing isolated sandbox container...")];
    AsReadsSplits(first + log, Epilogue(end));
    AsReadsSplits(first, log);
    assert AsReads(first) == [];
    var last := if end.Inspected? then Chunk(Complete, end.report) else Chunk(Error, end.message);
    AsReadsSplits(Notices(end.timeoutNotice), [last]);
    assert AsReads(Notices(end.timeoutNotice)) == [] && AsReads([last]) == [];
  }

  /** The outer consumer's outcome, from the inner one's, when only standard output was read. */
  lemma OuterOutcome(maxBytes: int, pieces: seq<string>)
    requires pieces != [] || maxBytes >= 0
    ensures var (inner, log) := ConsumeAll(Fresh(maxBytes), StdoutReads(pieces));
            var outer := ConsumeAll(Fresh(maxBytes), AsReads(log)).0;
            var text := Concat(pieces);
            if Bytes(text) > maxBytes then AgreeAfter(inner, Some(Stdout), outer)
            else outer == inner && !inner.limitExceeded
  {
    hide LimitMarker, ConsumeAll, Fit, Bytes, AsReads, TextOf, Concat, CountLedger, AgreeAfter;
    StdoutIsChunkingIndependent(maxBytes, pieces);
    OnlyStdout(maxBytes, pieces);
    TwoStages(maxBytes, StdoutReads(pieces));
    RunKeepsLedger(maxBytes, StdoutReads(pieces));
    NoOverflow();
  }

  lemma NoOverflow()
    ensures forall i, o :: AgreeAfter(i, None, o) ==> o == i && !i.limitExceeded
  {
  }

  /** The text of the outer consumer after an overflow. */
  lemma FilledUp(inner: ConsumerState, outer: ConsumerState, text: string)
    requires AgreeAfter(inner, Some(Stdout), outer)
    requires inner.stderr == [] && inner.totalBytes == Max(0, inner.maxBytes)
    requires Concat(inner.stdout) == Fit(text, Max(0, inner.maxBytes))
    ensures var (room, kept) := (Max(0, inner.maxBytes), Fit(text, Max(0, inner.maxBytes)));
            && outer.limitExceeded && outer.stderr == []
            && 0 <= room - Bytes(kept) <= 3 < |LimitMarker(inner.maxBytes)|
            && Concat(outer.stdout) == kept + LimitMarker(inner.maxBytes)[..room - Bytes(kept)]
            && Bytes(Concat(outer.stdout)) == room
  {
    hide LimitMarker, Fit, Bytes;
    EmptyText();
    MarkerHead(inner.maxBytes);
  }

  /**
    What `execute` reports, for every text that was read and however it was cut into reads: the limit
    status exactly when its encoding is over the cap; the whole text if not; and otherwise the longest
    fitting prefix filled up with the first bytes of the marker, at most 3, to exactly the cap.
   */
  lemma ExecuteReportsCappedOutput(maxBytes: int, pieces: seq<string>, end: Ending)
    requires pieces != [] || maxBytes >= 0
    ensures var text := Concat(pieces);
            var kept := Fit(text, Max(0, maxBytes));
            var result := ResultOf(ConsumeAll(Fresh(maxBytes), AsReads(StreamOf(maxBytes, pieces, end))).0);
            && result.stderr == ""
            && (result.status == OutputLimitExceeded <==> Bytes(text) > maxBytes)
            && (Bytes(text) <= maxBytes ==> result.status == Completed && result.stdout == text)
            && (Bytes(text) > maxBytes ==>
                  && 0 <= Max(0, maxBytes) - Bytes(kept) <= 3 < |LimitMarker(maxBytes)|
                  && result.stdout == kept + LimitMarker(maxBytes)[..Max(0, maxBytes) - Bytes(kept)]
                  && Bytes(result.stdout) == Max(0, maxBytes))
  {
    hide LimitMarker, ConsumeAll, Fit, Bytes, AsReads, StreamOf, AgreeAfter, Ledger, Paid;
    var (inner, log) := ConsumeAll(Fresh(maxBytes), StdoutReads(pieces));
    StreamReads(maxBytes, pieces, end);
    StdoutIsChunkingIndependent(maxBytes, pieces);
    RunKeepsLedger(maxBytes, StdoutReads(pieces));
    OuterOutcome(maxBytes, pieces);
    var text := Concat(pieces);
    if Bytes(text) > maxBytes {
      FilledUp(inner, ConsumeAll(Fresh(maxBytes), AsReads(log)).0, text);
    } else {
      FitIsPrefix(text, Max(0, maxBytes));
    }
  }
}
