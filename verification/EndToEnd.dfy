/**
  From the sandbox to the screen: the event order of the sandbox, the task's result, the delivery of a
  connection and the browser's state put together.
 */
module EndToEnd {
  import opened Models
  import opened Utf8
  import opened Streaming
  import opened WebSocketRelay
  import opened ExecutionStreamHook
  import opened Delivery
  import opened DeliveryLaws
  import opened Arrival
  import Sandbox = ProcessSandboxes
  import SandboxLaws = ProcessSandboxLaws
  import Consumers = StreamConsumers
  import ConsumerLaws = StreamConsumerLaws
  import Container = DockerSandboxes

  // ---------- The browser follows the connection ----------

  /** The browser's state is that of the frames received on the current connection. */
  predicate ClientInvariant(s: Net) {
    && s.received <= |s.conn.relay.sent|
    && s.client == OnMessages(NEW_CLIENT, s.conn.relay.sent[..s.received])
  }

  lemma OfferOnlyAppends(r: Relay, f: Frame, k: nat)
    requires k <= |r.sent|
    ensures k <= |Offer(r, f).sent| && Offer(r, f).sent[..k] == r.sent[..k]
  {
  }

  lemma ClientIsKept(s: Net, l: Label)
    requires ClientInvariant(s) && Enabled(s, l)
    ensures ClientInvariant(Next(s, l))
  {
    hide Offer, OnMessage, LRange;
    match l
    case ReplayOne => OfferOnlyAppends(s.conn.relay, s.conn.link.rest[0], s.received);
    case Deliver => OfferOnlyAppends(s.conn.relay, s.conn.inbox[0], s.received);
    case Receive =>
      var sent := s.conn.relay.sent;
      assert sent[..s.received + 1][..s.received] == sent[..s.received];
    case _ =>
  }

  lemma {:induction false} ClientFollows(s: Net, labels: seq<Label>)
    requires ClientInvariant(s) && Runs(s, labels)
    ensures ClientInvariant(After(s, labels))
    decreases labels
  {
    hide ClientInvariant, Enabled, Next;
    if labels != [] {
      ClientIsKept(s, labels[0]);
      ClientFollows(Next(s, labels[0]), labels[1..]);
    }
  }

  // ---------- What the screen shows ----------

  lemma NothingReceived()
    ensures OnMessages(NEW_CLIENT, []) == NEW_CLIENT
  {
  }

  lemma ReceivedIsShown(order: Order, ttl: real, faulty: bool, labels: seq<Label>)
    requires Runs(Init(order, ttl, faulty), labels)
    requires var s := After(Init(order, ttl, faulty), labels);
             s.received == |s.conn.relay.sent| && Increasing(s.conn.relay.sent)
    ensures var s := After(Init(order, ttl, faulty), labels);
            Shown(s.client.chunks) == StdoutOf(s.conn.relay.sent)
  {
    hide After, Runs, TextOf, Shown, Increasing;
    var s := After(Init(order, ttl, faulty), labels);
    NothingReceived();
    ClientFollows(Init(order, ttl, faulty), labels);
    assert s.conn.relay.sent[..s.received] == s.conn.relay.sent;
    ShowsWhatItReceives(s.conn.relay.sent);
  }

  /**
    After any number of reconnections, whatever fails and however old the list is: a browser that has
    caught up with a connection shows the standard output of the chunks before the first fault that the
    connection gets, and then that of the later chunks that were sent.
   */
  lemma ScreenShowsSent(order: Order, ttl: real, faulty: bool, labels: seq<Label>, events: seq<Chunk>)
    requires Runs(Init(order, ttl, faulty), labels)
    requires var s := After(Init(order, ttl, faulty), labels);
             CaughtUp(s) && s.formatted == Numbered(events, 0) && Quiet(events)
    ensures var s := After(Init(order, ttl, faulty), labels);
            && Clean(s) <= |events| && Increasing(Late(s))
            && Shown(s.client.chunks) == TextOf(DeliveredChunks(s, events), Stdout) + StdoutOf(Late(s))
  {
    hide After, Runs, NetInvariant, Clean, Quiet, StdoutOf, Late, TextOf, DeliveredChunks, Shown;
    InvariantHoldsFromStart(order, ttl, labels, faulty);
    SentText(After(Init(order, ttl, faulty), labels), events);
    ReceivedIsShown(order, ttl, faulty, labels);
  }

  /**
    If nothing fails: while the list has not expired, the standard output of all chunks, or of all but
    the one lost to the race; if it had expired and was empty, that of the chunks published since the
    subscription; if it had started again, that of its chunks and the later ones, but for the race.
   */
  lemma ScreenShowsStream(order: Order, ttl: real, labels: seq<Label>, events: seq<Chunk>)
    requires Runs(Init(order, ttl), labels)
    requires var s := After(Init(order, ttl), labels);
             CaughtUp(s) && s.formatted == Numbered(events, 0) && Quiet(events)
    ensures var s := After(Init(order, ttl), labels);
            var (c, shown) := (s.conn, Shown(s.client.chunks));
            && c.low <= c.high <= |events| && c.joinedAt <= |events|
            && (Missed(c) ==> c.high < |events|)
            && (ListUnexpired(c) ==> shown == TextOf(if Missed(c) then Without(events, c.high) else events, Stdout))
            && (c.low == c.high ==> shown == TextOf(events[c.joinedAt..], Stdout))
            && (c.low < c.high ==>
                  shown == TextOf(if Missed(c) then events[c.low..c.high] + events[c.high + 1..]
                                  else events[c.low..], Stdout))
  {
    hide After, Runs, TextOf, Shown, StdoutOf, NetInvariant, Arriving, Missed, Without, DeliveredChunks;
    ScreenShowsSent(order, ttl, false, labels, events);
    InvariantHoldsFromStart(order, ttl, labels);
    NothingLate(After(Init(order, ttl), labels), events);
  }

  lemma NothingLate(s: Net, events: seq<Chunk>)
    requires NetInvariant(s) && !s.faulty && Following(s.conn) && s.formatted == Numbered(events, 0)
    ensures Clean(s) == |events| && StdoutOf(Late(s)) == ""
    ensures var (c, chunks) := (s.conn, DeliveredChunks(s, events));
            && c.low <= c.high <= |events| && c.joinedAt <= |events|
            && (Missed(c) ==> c.high < |events|)
            && (ListUnexpired(c) ==> chunks == if Missed(c) then Without(events, c.high) else events)
            && (c.low == c.high ==> chunks == events[c.joinedAt..])
            && (c.low < c.high ==>
                  chunks == if Missed(c) then events[c.low..c.high] + events[c.high + 1..] else events[c.low..])
  {
    hide InNumberOrder, OfferAll, SentUpTo, Handled, Reaching, AllWell, ListInvariant;
    NothingFails(s);
    FaultFreeRelay(s);
    assert s.formatted[|events|..] == [];
    NothingSent();
    assert events[..|events|] == events;
    ArrivingOfAll(events, s.conn);
  }

  lemma ArrivingOfAll(events: seq<Chunk>, c: Conn)
    requires c.low <= c.high <= |events| && c.joinedAt <= |events| && c.joinedAt <= c.high + 1
    ensures var chunks := Arriving(events, c);
            && (ListUnexpired(c) ==> chunks == if Missed(c) then Without(events, c.high) else events)
            && (c.low == c.high ==> chunks == events[c.joinedAt..])
            && (c.low < c.high ==>
                  chunks == if Missed(c) then events[c.low..c.high] + events[c.high + 1..] else events[c.low..])
  {
  }

  lemma NothingSent()
    ensures StdoutOf([]) == ""
  {
    assert Payloads([]) == [];
  }

  // ---------- The whole way ----------

  /** The attempted chunk of a failed publication gets to the connection. */
  predicate Arrives(env: Environment, c: Conn)
    requires Covers(env) && HandledChunks(env) < |env.chunks|
  {
    var k := HandledChunks(env);
    Brings(c, k, Sent(env.faults[k]), Stored(env.faults[k]))
  }

  /** Standard output on the screen that the task did not collect. */
  function Uncollected(env: Environment, c: Conn): string
    requires Covers(env)
  {
    var k := HandledChunks(env);
    if k < |env.chunks| && env.chunks[k].event == Stdout && Arrives(env, c) then env.chunks[k].data else ""
  }

  /** The snapshot missed the chunk whose number is its length, and the task had handled that chunk. */
  predicate LostOf(env: Environment, c: Conn)
    requires Covers(env)
  {
    c.high < Min(c.joinedAt, HandledChunks(env))
  }

  /** What the connection gets of the chunks the task handled. */
  function HandledAndKept(env: Environment, c: Conn): seq<Chunk>
    requires Covers(env)
  {
    Arriving(env.chunks[..HandledChunks(env)], c)
  }

  lemma ScriptIsQuiet(env: Environment)
    requires Covers(env) && Quiet(env.chunks)
    ensures Quiet(Script(env))
  {
    hide HandledChunks;
  }

  /** Where the faults of a task begin. */
  lemma FaultsOfTask(env: Environment)
    requires Covers(env)
    ensures var (faults, k) := (ScriptFaults(env), HandledChunks(env));
            var clean := Handled(faults, |faults|);
            && |faults| == |Script(env)| && (forall i :: 0 <= i < k ==> faults[i] == env.faults[i])
            && (k < |env.chunks| ==> clean == k && faults[k] == env.faults[k] && k + 2 == |faults|)
            && (k == |env.chunks| ==> k <= clean <= |faults| <= k + 1)
  {
    hide Handled;
    var (faults, k) := (ScriptFaults(env), HandledChunks(env));
    var clean := Handled(faults, |faults|);
    assert forall i :: 0 <= i < k ==> faults[i] == env.faults[i] == NoFault;
    if k < |env.chunks| {
      assert faults[k] == env.faults[k] != NoFault;
    }
  }

  /** What is shown of the chunks before the first fault: what the task handled, and perhaps the error chunk. */
  lemma ShownOfHandled(s: Net, env: Environment)
    requires Covers(env) && s.faults == ScriptFaults(env)
    ensures Clean(s) <= |Script(env)|
    ensures var (shown, kept) := (DeliveredChunks(s, Script(env)), HandledAndKept(env, s.conn));
            shown == kept || shown == kept + [Chunk(Error, NoticeText(env))]
  {
    hide Handled, Arriving;
    FaultsOfTask(env);
    var (script, k) := (Script(env), HandledChunks(env));
    if Clean(s) == k {
      assert script[..k] == env.chunks[..k];
    } else {
      var notice := Chunk(Error, NoticeText(env));
      assert script[..k + 1] == env.chunks[..k] + [notice];
      ArrivingSnoc(env.chunks[..k], notice, s.conn);
    }
  }

  lemma ArrivingSnoc<T>(xs: seq<T>, x: T, c: Conn)
    ensures Arriving(xs + [x], c) == Arriving(xs, c) || Arriving(xs + [x], c) == Arriving(xs, c) + [x]
  {
    var more := xs + [x];
    assert forall i :: 0 <= i <= |xs| ==> more[i..] == xs[i..] + [x];
    assert more[|more|..] == xs[|xs|..] == [];
    if c.low < c.high <= |xs| {
      assert more[c.low..c.high] == xs[c.low..c.high];
      assert xs[c.low..] == xs[c.low..c.high] + xs[c.high..];
    }
  }

  lemma TextOfHandled(s: Net, env: Environment)
    requires Covers(env) && s.faults == ScriptFaults(env)
    ensures Clean(s) <= |Script(env)|
    ensures TextOf(DeliveredChunks(s, Script(env)), Stdout) == TextOf(HandledAndKept(env, s.conn), Stdout)
  {
    hide TextOf, Handled, DeliveredChunks, HandledAndKept;
    ShownOfHandled(s, env);
    TextOfSnoc(HandledAndKept(env, s.conn), Chunk(Error, NoticeText(env)), Stdout);
  }

  /** What is sent from the first fault on: the attempted chunk if it arrives, and perhaps the error chunk. */
  lemma LateText(s: Net, env: Environment)
    requires NetInvariant(s) && Following(s.conn) && s.order == PublishFirst
    requires Covers(env) && s.formatted == Numbered(Script(env), 0) && s.faults == ScriptFaults(env)
    ensures Clean(s) <= |s.formatted| && Increasing(Late(s))
    ensures StdoutOf(Late(s)) == Uncollected(env, s.conn)
  {
    hide NetInvariant, StdoutOf, Handled, Kept, Increasing, InNumberOrder, Arrives;
    Histories(s);
    FaultsOfTask(env);
    var (k, sent) := (HandledChunks(env), s.conn.relay.sent);
    var late := s.formatted[Clean(s)..];
    TailIsSorted(s.formatted, Clean(s));
    KeptIsSorted(late, sent);
    if k < |env.chunks| {
      AttemptSent(s, env);
      TwoFrames(late, sent);
    } else {
      NoStdout(late, sent);
    }
  }

  lemma AttemptSent(s: Net, env: Environment)
    requires NetInvariant(s) && Following(s.conn) && s.order == PublishFirst
    requires Covers(env) && s.formatted == Numbered(Script(env), 0) && s.faults == ScriptFaults(env)
    requires HandledChunks(env) < |env.chunks|
    ensures var k := HandledChunks(env);
            && Clean(s) == k && k + 2 == |s.formatted|
            && (s.formatted[k] in s.conn.relay.sent <==> Arrives(env, s.conn))
  {
    hide NetInvariant, Handled;
    FaultsOfTask(env);
    FaultyFrameSent(s);
  }

  lemma TwoFrames(late: seq<Frame>, sent: seq<Frame>)
    requires |late| == 2 && late[0].Frame? && late[1].Frame? && late[1].event == Error
    ensures StdoutOf(Kept(late, sent)) == if late[0] in sent && late[0].event == Stdout then late[0].data else ""
  {
    hide StdoutOf;
    NoStdout([], sent);
    assert late == [] + [late[0]] + [late[1]];
    StdoutOfLast([], late[0], sent);
    StdoutOfLast([] + [late[0]], late[1], sent);
  }

  lemma {:induction false} NoStdout(frames: seq<Frame>, sent: seq<Frame>)
    requires forall f :: f in frames ==> f.Frame? && f.event != Stdout
    ensures StdoutOf(Kept(frames, sent)) == ""
  {
    hide StdoutOf;
    if frames == [] {
      NothingSent();
    } else {
      var (init, f) := (frames[..|frames| - 1], frames[|frames| - 1]);
      assert frames == init + [f];
      NoStdout(init, sent);
      StdoutOfLast(init, f, sent);
    }
  }

  /**
    For any environment of the task, any interleaving of worker, clock and connections and any faults of
    Redis: a browser that has caught up shows the standard output of what its connection gets of the
    chunks the task handled, and behind it the chunk whose publication failed if that one arrived. So
    if the list had not expired and no chunk was lost, it shows what the task returns, except for that
    last chunk.
   */
  lemma ScreenShowsTask(env: Environment, ttl: real, labels: seq<Label>)
    requires Covers(env) && Quiet(env.chunks)
    requires Runs(Init(PublishFirst, ttl, true), labels)
    requires var s := After(Init(PublishFirst, ttl, true), labels);
             CaughtUp(s) && s.formatted == Numbered(Script(env), 0) && s.faults == ScriptFaults(env)
    ensures var s := After(Init(PublishFirst, ttl, true), labels);
            var (shown, outcome) := (Shown(s.client.chunks), TaskOutcome(env));
            && shown == TextOf(HandledAndKept(env, s.conn), Stdout) + Uncollected(env, s.conn)
            && (outcome.Some? && ListUnexpired(s.conn) && !LostOf(env, s.conn) ==>
                  && shown == outcome.value.stdout + Uncollected(env, s.conn)
                  && (shown == outcome.value.stdout <==> Uncollected(env, s.conn) == ""))
  {
    hide After, Runs, NetInvariant, Clean, Quiet, StdoutOf, Late, TextOf, DeliveredChunks, Shown;
    hide Script, ScriptFaults, Uncollected, Arriving;
    var s := After(Init(PublishFirst, ttl, true), labels);
    InvariantHoldsFromStart(PublishFirst, ttl, labels, true);
    ScriptIsQuiet(env);
    ScreenShowsSent(PublishFirst, ttl, true, labels, Script(env));
    TextOfHandled(s, env);
    LateText(s, env);
    PiecesAreText(env.chunks[..HandledChunks(env)], Stdout);
    if ListUnexpired(s.conn) && !LostOf(env, s.conn) {
      NothingLost(env.chunks[..HandledChunks(env)], s.conn);
    }
  }

  lemma NothingLost<T>(xs: seq<T>, c: Conn)
    requires ListUnexpired(c) && c.high >= Min(c.joinedAt, |xs|)
    ensures Arriving(xs, c) == xs
  {
  }

  lemma OrderIsQuiet(events: seq<Chunk>)
    requires SandboxLaws.InOrder(events)
    ensures Quiet(events)
  {
  }

  /** The same for any run of the subprocess sandbox, whether it ends, fails or is broken off. */
  lemma ScreenShowsTaskOutput(
    maxBytes: int, timeout: real, steps: seq<Sandbox.Label>, env: Environment, ttl: real, labels: seq<Label>)
    requires Sandbox.Runs(Sandbox.Init(maxBytes, timeout), steps)
    requires env.chunks == Sandbox.After(Sandbox.Init(maxBytes, timeout), steps).events && Covers(env)
    requires Runs(Init(PublishFirst, ttl, true), labels)
    requires var s := After(Init(PublishFirst, ttl, true), labels);
             CaughtUp(s) && s.formatted == Numbered(Script(env), 0) && s.faults == ScriptFaults(env)
    ensures var s := After(Init(PublishFirst, ttl, true), labels);
            var (shown, outcome) := (Shown(s.client.chunks), TaskOutcome(env));
            && shown == TextOf(HandledAndKept(env, s.conn), Stdout) + Uncollected(env, s.conn)
            && (outcome.Some? && ListUnexpired(s.conn) && !LostOf(env, s.conn) ==>
                  && shown == outcome.value.stdout + Uncollected(env, s.conn)
                  && (shown == outcome.value.stdout <==> Uncollected(env, s.conn) == ""))
  {
    hide After, Runs, TextOf, Shown, Sandbox.After, Sandbox.Runs, TaskOutcome, CaughtUp, Script, ScriptFaults, Quiet;
    hide HandledAndKept, Uncollected, LostOf;
    SandboxLaws.EveryTraceIsOrdered(maxBytes, timeout, steps);
    OrderIsQuiet(env.chunks);
    ScreenShowsTask(env, ttl, labels);
  }

  /**
    In particular: while no publication of a chunk fails and the list had not expired, a browser that
    missed nothing shows exactly what the task returns, also when the sandbox raises.
   */
  lemma ScreenShowsResult(env: Environment, ttl: real, labels: seq<Label>)
    requires Covers(env) && Quiet(env.chunks) && forall i :: 0 <= i < |env.chunks| ==> env.faults[i] == NoFault
    requires Runs(Init(PublishFirst, ttl, true), labels)
    requires var s := After(Init(PublishFirst, ttl, true), labels);
             && CaughtUp(s) && ListUnexpired(s.conn) && !Missed(s.conn)
             && s.formatted == Numbered(Script(env), 0) && s.faults == ScriptFaults(env)
    ensures var s := After(Init(PublishFirst, ttl, true), labels);
            && Shown(s.client.chunks) == TextOf(env.chunks, Stdout)
            && (TaskOutcome(env).Some? ==> Shown(s.client.chunks) == TaskOutcome(env).value.stdout)
            && (TaskOutcome(env).None? <==> env.sandboxRaises && env.faults[|env.chunks|] != NoFault)
  {
    hide After, Runs, TextOf, Shown, CaughtUp, Script, ScriptFaults, Quiet;
    ScreenShowsTask(env, ttl, labels);
    assert env.chunks[..|env.chunks|] == env.chunks;
  }

  /**
    And for a program that prints `output` to standard output and is not timed out, the screen shows
    the longest whole-character prefix of `output` that fits the cap, with the marker behind it if
    something was cut.
   */
  lemma ScreenShowsCappedOutput(
    maxBytes: int, timeout: real, steps: seq<Sandbox.Label>, exitCode: Option<int>, report: string, output: string,
    order: Order, ttl: real, labels: seq<Label>)
    requires maxBytes >= 0
    requires Sandbox.Runs(Sandbox.Init(maxBytes, timeout), steps)
    requires SandboxLaws.Drained(Sandbox.After(Sandbox.Init(maxBytes, timeout), steps))
    requires var run := Sandbox.After(Sandbox.Init(maxBytes, timeout), steps);
             var text := Concat(SandboxLaws.StdoutPieces(run.inputs));
             && (forall i :: 0 <= i < |run.inputs| ==> !run.inputs[i].fromStderr)
             && text <= output
             && (!run.consumer.limitExceeded ==> text == output)
    requires Runs(Init(order, ttl), labels)
    requires var run := Sandbox.After(Sandbox.Init(maxBytes, timeout), steps);
             var s := After(Init(order, ttl), labels);
             && CaughtUp(s) && ListUnexpired(s.conn) && !Missed(s.conn)
             && s.formatted == Numbered(run.events + [Chunk(Complete, report)], 0)
    ensures Shown(After(Init(order, ttl), labels).client.chunks)
            == Fit(output, maxBytes) + (if Bytes(output) > maxBytes then Consumers.LimitMarker(maxBytes) else "")
  {
    hide After, Runs, TextOf, Shown, Sandbox.After, Sandbox.Runs, CaughtUp, Missed, ListUnexpired, Quiet;
    hide Fit, Bytes, Consumers.LimitMarker;
    var run := Sandbox.After(Sandbox.Init(maxBytes, timeout), steps);
    SandboxLaws.AfterSnoc(Sandbox.Init(maxBytes, timeout), steps, Sandbox.Finish(exitCode, report));
    SandboxLaws.EveryTraceIsOrdered(maxBytes, timeout, steps + [Sandbox.Finish(exitCode, report)]);
    SandboxLaws.StreamedStdoutIsCapped(maxBytes, timeout, steps, output);
    TextOfSnoc(run.events, Chunk(Complete, report), Stdout);
    OrderIsQuiet(run.events + [Chunk(Complete, report)]);
    ScreenShowsStream(order, ttl, labels, run.events + [Chunk(Complete, report)]);
  }

  // ---------- What the task returns of a whole sandbox run ----------

  /**
    A fault-free task over a finished sandbox run returns the run's final report, which is its last chunk,
    and the text of both of its streams.
   */
  lemma TaskReturnsFinalReport(maxBytes: int, timeout: real, steps: seq<Sandbox.Label>, env: Environment)
    requires Sandbox.Runs(Sandbox.Init(maxBytes, timeout), steps)
    requires var run := Sandbox.After(Sandbox.Init(maxBytes, timeout), steps);
             run.phase.Done? && env.chunks == run.events
    requires Covers(env) && !env.sandboxRaises && forall i :: 0 <= i < |env.chunks| ==> env.faults[i] == NoFault
    ensures var (chunks, o) := (env.chunks, TaskOutcome(env));
            && chunks != [] && chunks[|chunks| - 1].event == Complete
            && o == Some(TaskResult(None, Some(chunks[|chunks| - 1].data),
                                    TextOf(chunks, Stdout), TextOf(chunks, Stderr)))
  {
    hide Sandbox.After, Sandbox.Runs, TextOf, TaskOutcome, Script;
    SandboxLaws.EveryTraceIsOrdered(maxBytes, timeout, steps);
    TaskReports(env);
    var n := |env.chunks|;
    assert env.chunks[..n] == env.chunks;
    assert IsLast(env.chunks, n - 1, Complete);
  }

  // ---------- A reconnection after expiry ----------

  /** A connection goes live before the worker publishes a chunk, and the browser receives it. */
  function FirstVisit(chunk: Chunk): seq<Label> {
    [Subscribe] + ([Snapshot] + ([GoLive] + FirstChunk(chunk)))
  }

  function FirstChunk(chunk: Chunk): seq<Label> {
    [Emit(chunk)] + ([Deliver] + ([Receive] + []))
  }

  /** The worker completes the publication, the list's time to live passes, and the browser connects again. */
  function LateReturn(ttl: real): seq<Label> {
    [Second] + ([Refresh] + ([Tick(ttl)] + ([Connect] + NewVisit())))
  }

  function NewVisit(): seq<Label> {
    [Subscribe] + ([Snapshot] + ([GoLive] + []))
  }

  /** The state in which the browser has received the chunk. */
  function FirstSeen(chunk: Chunk, ttl: real): Net {
    var f := Frame(0, chunk.event, chunk.data);
    Net(PublishFirst, ttl, false, Half(f, NoFault), [f], [NoFault], [f], [], 0, [], None, 0.0, 0.0,
        Conn(Live, [], Relay(0, [f]), 0, 0, 0, 1), OnMessage(NEW_CLIENT, f), 1)
  }

  /** The state after the late return. */
  function Returned(chunk: Chunk, ttl: real): Net {
    var f := Frame(0, chunk.event, chunk.data);
    Net(PublishFirst, ttl, false, Ready, [f], [NoFault], [f], [f], 1, [], None, 0.0, ttl,
        Conn(Live, [], NEW_RELAY, 1, 1, 1, 0), NEW_CLIENT, 0)
  }

  /** A connection that is live before anything is published. */
  function EarlyBird(ttl: real): Net {
    Init(PublishFirst, ttl).(conn := Conn(Live, [], NEW_RELAY, 0, 0, 0, 0))
  }

  lemma FirstChunkRuns(chunk: Chunk, ttl: real)
    requires chunk.event == Stdout
    ensures Runs(EarlyBird(ttl), FirstChunk(chunk))
    ensures After(EarlyBird(ttl), FirstChunk(chunk)) == FirstSeen(chunk, ttl)
  {
    hide Runs, After, OnMessage;
    var s0 := EarlyBird(ttl);
    var s1 := Next(s0, Emit(chunk));
    var s2 := Next(s1, Deliver);
    assert Next(s2, Receive) == FirstSeen(chunk, ttl);
    hide Next;
    NoSteps(FirstSeen(chunk, ttl));
    LastStep(s2, Receive, []);
    LastStep(s1, Deliver, [Receive] + []);
    LastStep(s0, Emit(chunk), [Deliver] + ([Receive] + []));
  }

  lemma FirstVisitRuns(chunk: Chunk, ttl: real)
    requires chunk.event == Stdout
    ensures Runs(Init(PublishFirst, ttl), FirstVisit(chunk))
    ensures After(Init(PublishFirst, ttl), FirstVisit(chunk)) == FirstSeen(chunk, ttl)
  {
    hide Runs, After, FirstChunk, FirstSeen;
    var s0 := Init(PublishFirst, ttl);
    var s1 := Next(s0, Subscribe);
    SnapshotOfNothing(s1);
    var s2 := Next(s1, Snapshot);
    assert Next(s2, GoLive) == EarlyBird(ttl);
    FirstChunkRuns(chunk, ttl);
    LastStep(s2, GoLive, FirstChunk(chunk));
    LastStep(s1, Snapshot, [GoLive] + FirstChunk(chunk));
    LastStep(s0, Subscribe, [Snapshot] + ([GoLive] + FirstChunk(chunk)));
  }

  lemma NewVisitRuns(chunk: Chunk, ttl: real)
    ensures var s := Returned(chunk, ttl).(conn := NEW_CONN);
            Runs(s, NewVisit()) && After(s, NewVisit()) == Returned(chunk, ttl)
  {
    hide Runs, After;
    var s0 := Returned(chunk, ttl).(conn := NEW_CONN);
    var s1 := Next(s0, Subscribe);
    SnapshotOfNothing(s1);
    var s2 := Next(s1, Snapshot);
    assert Next(s2, GoLive) == Returned(chunk, ttl);
    NoSteps(Returned(chunk, ttl));
    LastStep(s2, GoLive, []);
    LastStep(s1, Snapshot, [GoLive] + []);
    LastStep(s0, Subscribe, [Snapshot] + ([GoLive] + []));
  }

  lemma LateReturnRuns(chunk: Chunk, ttl: real)
    requires ttl >= 0.0
    ensures Runs(FirstSeen(chunk, ttl), LateReturn(ttl))
    ensures After(FirstSeen(chunk, ttl), LateReturn(ttl)) == Returned(chunk, ttl)
  {
    hide Runs, After, OnMessage, NewVisit;
    var s0 := FirstSeen(chunk, ttl);
    var s1 := Next(s0, Second);
    var s2 := Next(s1, Refresh);
    var s3 := Next(s2, Tick(ttl));
    assert Next(s3, Connect) == Returned(chunk, ttl).(conn := NEW_CONN);
    NewVisitRuns(chunk, ttl);
    LastStep(s3, Connect, NewVisit());
    LastStep(s2, Tick(ttl), [Connect] + NewVisit());
    LastStep(s1, Refresh, [Tick(ttl)] + ([Connect] + NewVisit()));
    LastStep(s0, Second, [Refresh] + ([Tick(ttl)] + ([Connect] + NewVisit())));
  }

  /**
    A browser that shows a chunk and returns after the list has expired shows nothing of it, and catches
    up with nothing.
   */
  lemma LateReturnShowsNothing(chunk: Chunk, ttl: real)
    requires chunk.event == Stdout && ttl >= 0.0
    ensures var s := Init(PublishFirst, ttl);
            && Runs(s, FirstVisit(chunk)) && Runs(s, FirstVisit(chunk) + LateReturn(ttl))
            && var (seen, returned) := (After(s, FirstVisit(chunk)), After(s, FirstVisit(chunk) + LateReturn(ttl)));
               && Shown(seen.client.chunks) == chunk.data
               && CaughtUp(returned) && returned.formatted == Numbered([chunk], 0) && returned.worker == Ready
               && Shown(returned.client.chunks) == ""
  {
    hide Runs, After;
    FirstVisitRuns(chunk, ttl);
    LateReturnRuns(chunk, ttl);
    RunsSplit(Init(PublishFirst, ttl), FirstVisit(chunk), LateReturn(ttl));
    ShownSnoc([], UiChunk(OutText, chunk.data, 0));
    assert [] + [UiChunk(OutText, chunk.data, 0)] == [UiChunk(OutText, chunk.data, 0)];
  }

  // ---------- Programs in the container sandbox ----------

  /** The container's stream has the same order of events. */
  lemma ContainerTraceIsOrdered(maxBytes: int, pieces: seq<string>, end: Container.Ending)
    ensures SandboxLaws.InOrder(Container.StreamOf(maxBytes, pieces, end))
  {
    hide ConsumerLaws.ConsumeAll, Container.Epilogue, SandboxLaws.InOrder;
    var log := ConsumerLaws.ConsumeAll(Consumers.Fresh(maxBytes), ConsumerLaws.StdoutReads(pieces)).1;
    Container.OnlyStdout(maxBytes, pieces);
    EpilogueIsOrdered(end);
    var first := [Chunk(Status, "Initializing isolated sandbox container...")];
    assert forall i :: 0 <= i < |log| ==> log[i] in log;
    ThreePartsInOrder(first, log, Container.Epilogue(end));
  }

  lemma EpilogueIsOrdered(end: Container.Ending)
    ensures SandboxLaws.InOrder(Container.Epilogue(end))
    ensures var e := Container.Epilogue(end); forall i :: 0 <= i < |e| ==> SandboxLaws.Rank(e[i].event) >= 2
  {
  }

  lemma ThreePartsInOrder(a: seq<Chunk>, b: seq<Chunk>, c: seq<Chunk>)
    requires forall i :: 0 <= i < |a| ==> a[i].event == Status
    requires forall i :: 0 <= i < |b| ==> b[i].event == Stdout
    requires forall i :: 0 <= i < |c| ==> SandboxLaws.Rank(c[i].event) >= 2
    requires SandboxLaws.InOrder(c)
    ensures SandboxLaws.InOrder(a + b + c)
  {
    JoinInOrder(a, b, 1);
    JoinInOrder(a + b, c, 2);
  }

  lemma JoinInOrder(a: seq<Chunk>, b: seq<Chunk>, rank: nat)
    requires SandboxLaws.InOrder(a) && SandboxLaws.InOrder(b)
    requires forall i :: 0 <= i < |a| ==> SandboxLaws.Rank(a[i].event) <= rank
    requires forall i :: 0 <= i < |b| ==> SandboxLaws.Rank(b[i].event) >= rank
    ensures SandboxLaws.InOrder(a + b)
  {
    hide SandboxLaws.Rank;
  }

  /**
    Beside the output, the container's stream carries one status chunk; as errors the timeout notice, if
    there was a timeout, and then the daemon's message, if the daemon failed; and a final chunk with the
    report, as the last one, exactly if the container was inspected.
   */
  lemma ContainerStreamTells(maxBytes: int, pieces: seq<string>, end: Container.Ending)
    ensures var stream := Container.StreamOf(maxBytes, pieces, end);
            var notices := if end.timeoutNotice.Some? then [end.timeoutNotice.value] else [];
            && PiecesOf(stream, Status) == ["Initializing isolated sandbox container..."]
            && PiecesOf(stream, Stderr) == []
            && PiecesOf(stream, Error) == notices + (if end.DaemonFailed? then [end.message] else [])
            && PiecesOf(stream, Complete) == (if end.Inspected? then [end.report] else [])
            && (end.Inspected? ==> stream[|stream| - 1] == Chunk(Complete, end.report))
  {
    hide ConsumerLaws.ConsumeAll, PiecesOf, Container.Epilogue;
    var log := ConsumerLaws.ConsumeAll(Consumers.Fresh(maxBytes), ConsumerLaws.StdoutReads(pieces)).1;
    var first := Chunk(Status, "Initializing isolated sandbox container...");
    var tail := Container.Epilogue(end);
    Container.OnlyStdout(maxBytes, pieces);
    assert forall i :: 0 <= i < |log| ==> log[i] in log;
    BesideOutput(first, log, tail, Status);
    BesideOutput(first, log, tail, Stderr);
    BesideOutput(first, log, tail, Error);
    BesideOutput(first, log, tail, Complete);
    EpilogueTells(end);
    var stream := Container.StreamOf(maxBytes, pieces, end);
    assert stream == [first] + log + tail;
    assert tail != [] ==> ([first] + log + tail)[|stream| - 1] == tail[|tail| - 1];
  }

  lemma BesideOutput(first: Chunk, log: seq<Chunk>, tail: seq<Chunk>, e: Event)
    requires e != Stdout && forall i :: 0 <= i < |log| ==> log[i].event == Stdout
    ensures PiecesOf([first] + log + tail, e) == (if first.event == e then [first.data] else []) + PiecesOf(tail, e)
  {
    PiecesOfSplits([first] + log, tail, e);
    PiecesOfSplits([first], log, e);
    PiecesOfOne(first, e);
    PiecesOfNone(log, e);
  }

  lemma EpilogueTells(end: Container.Ending)
    ensures var tail := Container.Epilogue(end);
            var notices := if end.timeoutNotice.Some? then [end.timeoutNotice.value] else [];
            && tail != []
            && PiecesOf(tail, Status) == [] && PiecesOf(tail, Stderr) == []
            && PiecesOf(tail, Error) == notices + (if end.DaemonFailed? then [end.message] else [])
            && PiecesOf(tail, Complete) == (if end.Inspected? then [end.report] else [])
            && (end.Inspected? ==> tail[|tail| - 1] == Chunk(Complete, end.report))
  {
    var last := if end.Inspected? then Chunk(Complete, end.report) else Chunk(Error, end.message);
    var notices := if end.timeoutNotice.Some? then [Chunk(Error, end.timeoutNotice.value)] else [];
    assert Container.Epilogue(end) == notices + [last];
    forall e: Event
      ensures PiecesOf(notices + [last], e) == PiecesOf(notices, e) + PiecesOf([last], e)
    {
      PiecesOfSplits(notices, [last], e);
    }
    assert forall e: Event :: PiecesOf([last], e) == (if last.event == e then [last.data] else []) by {
      forall e: Event
        ensures PiecesOf([last], e) == if last.event == e then [last.data] else []
      {
        PiecesOfOne(last, e);
      }
    }
    forall e: Event
      ensures PiecesOf(notices, e) == if e == Error && end.timeoutNotice.Some? then [end.timeoutNotice.value] else []
    {
      if end.timeoutNotice.Some? {
        PiecesOfOne(notices[0], e);
        assert notices == [notices[0]];
      }
    }
  }

  lemma ContainerText(maxBytes: int, pieces: seq<string>, end: Container.Ending)
    requires pieces != [] || maxBytes >= 0
    ensures var text := Concat(pieces);
            TextOf(Container.StreamOf(maxBytes, pieces, end), Stdout)
            == Fit(text, Max(0, maxBytes)) + (if Bytes(text) > maxBytes then Consumers.LimitMarker(maxBytes) else "")
  {
    hide ConsumerLaws.ConsumeAll, TextOf, Fit, Bytes, Consumers.LimitMarker;
    CapturedText(maxBytes, pieces);
    var log := ConsumerLaws.ConsumeAll(Consumers.Fresh(maxBytes), ConsumerLaws.StdoutReads(pieces)).1;
    var first := [Chunk(Status, "Initializing isolated sandbox container...")];
    TextOfSplits(first + log, Container.Epilogue(end), Stdout);
    TextOfSplits(first, log, Stdout);
    TextOfNone(first, Stdout);
    TextOfNone(Container.Epilogue(end), Stdout);
    assert "" + TextOf(log, Stdout) + "" == TextOf(log, Stdout);
  }

  lemma CapturedText(maxBytes: int, pieces: seq<string>)
    requires pieces != [] || maxBytes >= 0
    ensures var text := Concat(pieces);
            TextOf(ConsumerLaws.ConsumeAll(Consumers.Fresh(maxBytes), ConsumerLaws.StdoutReads(pieces)).1, Stdout)
            == Fit(text, Max(0, maxBytes)) + (if Bytes(text) > maxBytes then Consumers.LimitMarker(maxBytes) else "")
  {
    hide ConsumerLaws.ConsumeAll, TextOf, Fit, Bytes, Consumers.LimitMarker, Concat;
    ConsumerLaws.StdoutIsChunkingIndependent(maxBytes, pieces);
    ConsumerLaws.RunKeepsLedger(maxBytes, ConsumerLaws.StdoutReads(pieces));
    Container.OnlyStdout(maxBytes, pieces);
    var log := ConsumerLaws.ConsumeAll(Consumers.Fresh(maxBytes), ConsumerLaws.StdoutReads(pieces)).1;
    assert TextOf(log, Stdout) + "" == TextOf(log, Stdout);
  }

  /**
    For the text read from a program in the container, however it was cut into reads and whatever ended
    it, a browser that has caught up with an unexpired list and missed nothing shows it capped.
   */
  lemma ScreenShowsContainerOutput(
    maxBytes: int, pieces: seq<string>, end: Container.Ending, order: Order, ttl: real, labels: seq<Label>)
    requires pieces != [] || maxBytes >= 0
    requires Runs(Init(order, ttl), labels)
    requires var s := After(Init(order, ttl), labels);
             && CaughtUp(s) && ListUnexpired(s.conn) && !Missed(s.conn)
             && s.formatted == Numbered(Container.StreamOf(maxBytes, pieces, end), 0)
    ensures var text := Concat(pieces);
            Shown(After(Init(order, ttl), labels).client.chunks)
            == Fit(text, Max(0, maxBytes)) + (if Bytes(text) > maxBytes then Consumers.LimitMarker(maxBytes) else "")
  {
    hide After, Runs, TextOf, Shown, CaughtUp, Missed, Quiet, Fit, Bytes, Consumers.LimitMarker, Container.StreamOf;
    ContainerTraceIsOrdered(maxBytes, pieces, end);
    ContainerText(maxBytes, pieces, end);
    OrderIsQuiet(Container.StreamOf(maxBytes, pieces, end));
    ScreenShowsStream(order, ttl, labels, Container.StreamOf(maxBytes, pieces, end));
  }
}
