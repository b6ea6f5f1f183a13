/**
  The worker's side of the stream: the Redis channel and catch-up list of one submission, the
  multiplexer that numbers and sends chunks, and the task that feeds it from a sandbox.
 */
module Streaming {
  import opened Models

  /** A message on the wire: a well-formed frame, or text that does not parse as JSON. */
  datatype Frame =
    | Frame(sequence: int, event: Event, data: string)
    | Garbled(text: string)

  const BUFFER_TTL_SECONDS := 60.0

  function Numbered(chunks: seq<Chunk>, first: nat): seq<Frame> {
    seq(|chunks|, i requires 0 <= i < |chunks| => Frame(first + i, chunks[i].event, chunks[i].data))
  }

  /** Redis' LRANGE: inclusive bounds, negative ones count from the end. */
  function LRange<T>(list: seq<T>, start: int, stop: int): seq<T> {
    var lo := if start < 0 then Max(0, start + |list|) else start;
    var hi := if stop < 0 then stop + |list| else if stop < |list| then stop else |list| - 1;
    if lo <= hi < |list| then list[lo..hi + 1] else []
  }

  // ---------- The Redis keys of one submission ----------

  /** `pushed` is the history of RPUSHed frames. */
  datatype StoreState = StoreState(
    clock: real, channel: seq<Frame>, buffer: seq<Frame>, deadline: Option<real>, pushed: seq<Frame>)

  /** Time passes; a list whose time to live has run out is deleted. */
  function Elapsed(st: StoreState, seconds: real): StoreState {
    var clock := st.clock + seconds;
    if st.deadline.Some? && clock >= st.deadline.value then st.(clock := clock, buffer := [], deadline := None)
    else st.(clock := clock)
  }

  /** Which of the three Redis calls of one publication raises, and whether the call took effect before. */
  datatype Fault = NoFault | PublishRaises(sent: bool) | PushRaises(stored: bool) | ExpireRaises(refreshed: bool)

  predicate Sent(fault: Fault) {
    fault.PublishRaises? ==> fault.sent
  }

  predicate Stored(fault: Fault) {
    !fault.PublishRaises? && (fault.PushRaises? ==> fault.stored)
  }

  predicate Refreshes(fault: Fault) {
    fault == NoFault || fault == ExpireRaises(true)
  }

  function When(condition: bool, f: Frame): seq<Frame> {
    if condition then [f] else []
  }

  /** EXPIRE on a missing key does nothing. */
  function Refreshed(st: StoreState): StoreState {
    if st.buffer == [] then st else st.(deadline := Some(st.clock + BUFFER_TTL_SECONDS))
  }

  /** One publication: the channel, then the list, then its time to live, up to the call that raises. */
  function Published(st: StoreState, f: Frame, fault: Fault): StoreState {
    var st1 := st.(channel := st.channel + When(Sent(fault), f));
    var st2 := st1.(buffer := st1.buffer + When(Stored(fault), f), pushed := st1.pushed + When(Stored(fault), f));
    if Refreshes(fault) then Refreshed(st2) else st2
  }

  class StreamStore {
    var clock: real
    var channel: seq<Frame>
    var buffer: seq<Frame>
    var deadline: Option<real>
    ghost var pushed: seq<Frame>

    ghost function State(): StoreState
      reads this
    {
      StoreState(clock, channel, buffer, deadline, pushed)
    }

    constructor ()
      ensures State() == StoreState(0.0, [], [], None, [])
    {
      clock, channel, buffer, deadline, pushed := 0.0, [], [], None, [];
    }

    method PassTime(seconds: real)
      modifies this
      ensures State() == Elapsed(old(State()), seconds)
    {
      clock := clock + seconds;
      if deadline.Some? && clock >= deadline.value {
        buffer, deadline := [], None;
      }
    }

    method Publish(f: Frame)
      modifies this`channel
      ensures channel == old(channel) + [f]
    {
      channel := channel + [f];
    }

    method RPush(f: Frame) returns (length: nat)
      modifies this`buffer, this`pushed
      ensures buffer == old(buffer) + [f] && pushed == old(pushed) + [f] && length == |buffer|
    {
      buffer, pushed := buffer + [f], pushed + [f];
      length := |buffer|;
    }

    method Expire(ttl: real)
      modifies this`deadline
      ensures deadline == if buffer == [] then old(deadline) else Some(clock + ttl)
    {
      if buffer != [] {
        deadline := Some(clock + ttl);
      }
    }

    /** The frames from `startIndex` on; a negative index counts from the end of the list. */
    method GetBuffered(startIndex: int := 0) returns (frames: seq<Frame>)
      ensures startIndex >= 0 ==> frames == if startIndex <= |buffer| then buffer[startIndex..] else []
      ensures startIndex < 0 ==> frames == buffer[Max(0, |buffer| + startIndex)..]
    {
      frames := LRange(buffer, startIndex, -1);
      CatchUpFromIndex(buffer, startIndex);
    }
  }

  class StreamMultiplexer {
    var sequence: nat

    constructor ()
      ensures sequence == 0
    {
      sequence := 0;
    }

    method FormatPayload(chunk: Chunk) returns (f: Frame)
      modifies this
      ensures f == Frame(old(sequence), chunk.event, chunk.data) && sequence == old(sequence) + 1
    {
      f := Frame(sequence, chunk.event, chunk.data);
      sequence := sequence + 1;
    }

    /** Publishes on the channel first and appends to the list second. */
    method PublishChunk(store: StreamStore, chunk: Chunk, fault: Fault) returns (raised: bool)
      modifies this, store
      ensures raised == (fault != NoFault) && sequence == old(sequence) + 1
      ensures store.State() == Published(old(store.State()), Frame(old(sequence), chunk.event, chunk.data), fault)
    {
      var f := FormatPayload(chunk);
      if Sent(fault) {
        store.Publish(f);
      }
      if fault.PublishRaises? {
        return true;
      }
      if Stored(fault) {
        var _ := store.RPush(f);
      }
      if fault.PushRaises? {
        return true;
      }
      if Refreshes(fault) {
        store.Expire(BUFFER_TTL_SECONDS);
      }
      raised := fault != NoFault;
    }
  }

  // ---------- A sequence of publications ----------

  /** The state after the first `n` publications, each with its fault and the time that passed before it. */
  function Feed(st: StoreState, frames: seq<Frame>, faults: seq<Fault>, waits: seq<real>, n: nat): StoreState
    requires n <= |frames| && n <= |faults| && n <= |waits|
  {
    if n == 0 then st
    else Published(Elapsed(Feed(st, frames, faults, waits, n - 1), waits[n - 1]), frames[n - 1], faults[n - 1])
  }

  predicate Reached(fault: Fault, sent: bool) {
    if sent then Sent(fault) else Stored(fault)
  }

  /** Which of the first `n` frames reach the channel (`sent`) or the list (`!sent`). */
  function Reaching(frames: seq<Frame>, faults: seq<Fault>, n: nat, sent: bool): seq<Frame>
    requires n <= |frames| && n <= |faults|
  {
    if n == 0 then []
    else Reaching(frames, faults, n - 1, sent) + When(Reached(faults[n - 1], sent), frames[n - 1])
  }

  lemma {:induction false} FeedReaches(st: StoreState, frames: seq<Frame>, faults: seq<Fault>, waits: seq<real>, n: nat)
    requires n <= |frames| && n <= |faults| && n <= |waits|
    ensures var st' := Feed(st, frames, faults, waits, n);
            && st'.channel == st.channel + Reaching(frames, faults, n, true)
            && st'.pushed == st.pushed + Reaching(frames, faults, n, false)
  {
    hide Published, Elapsed, When, Reached;
    if n > 0 {
      FeedReaches(st, frames, faults, waits, n - 1);
      OnePublication(Feed(st, frames, faults, waits, n - 1), waits[n - 1], frames[n - 1], faults[n - 1]);
    }
  }

  lemma OnePublication(st: StoreState, wait: real, f: Frame, fault: Fault)
    ensures var st' := Published(Elapsed(st, wait), f, fault);
            && st'.channel == st.channel + When(Reached(fault, true), f)
            && st'.pushed == st.pushed + When(Reached(fault, false), f)
  {
  }

  /** The frames without a fault reach both; so the first `m` of them do if nothing fails among them. */
  lemma {:induction false} ReachingWell(frames: seq<Frame>, faults: seq<Fault>, m: nat, n: nat, sent: bool)
    requires m <= n <= |frames| && n <= |faults|
    requires forall i :: 0 <= i < m ==> faults[i] == NoFault
    ensures m <= |Reaching(frames, faults, n, sent)| && Reaching(frames, faults, n, sent)[..m] == frames[..m]
    ensures m == n ==> Reaching(frames, faults, n, sent) == frames[..n]
    decreases n
  {
    if n > 0 {
      ReachingWell(frames, faults, if m < n then m else n - 1, n - 1, sent);
    }
  }

  /** What the task returns; `failure` is set when an exception replaced the final status by SYSTEM_ERROR. */
  datatype TaskResult = TaskResult(failure: Option<string>, report: Option<string>, stdout: string, stderr: string)

  /** The data of the last COMPLETE chunk. */
  function LastReport(chunks: seq<Chunk>): Option<string> {
    if chunks == [] then None
    else
      var c := chunks[|chunks| - 1];
      if c.event == Complete then Some(c.data) else LastReport(chunks[..|chunks| - 1])
  }

  /**
    What the sandbox and Redis do to one task: the yielded chunks, the fault of each publication and the
    time before it, a raising sandbox. The last fault and wait are those of the error chunk.
   */
  datatype Environment = Environment(
    chunks: seq<Chunk>, faults: seq<Fault>, waits: seq<real>, sandboxRaises: bool, message: string)

  predicate Covers(env: Environment) {
    |env.faults| == |env.waits| == |env.chunks| + 1
  }

  /** Number of chunks whose publication did not raise. */
  function Handled(faults: seq<Fault>, n: nat): (k: nat)
    requires n <= |faults|
    ensures k <= n
    ensures forall i :: 0 <= i < k ==> faults[i] == NoFault
    ensures k < n ==> faults[k] != NoFault
  {
    if n == 0 then 0
    else
      var k := Handled(faults, n - 1);
      if k < n - 1 || faults[n - 1] != NoFault then k else n
  }

  /** Number of chunks handled before the first exception, all of them if there is none. */
  function HandledChunks(env: Environment): (k: nat)
    requires Covers(env)
    ensures k <= |env.chunks|
  {
    Handled(env.faults, |env.chunks|)
  }

  /** Number of chunks whose publication was attempted. */
  function AttemptedChunks(env: Environment): (n: nat)
    requires Covers(env)
    ensures n <= |env.chunks|
  {
    if HandledChunks(env) < |env.chunks| then HandledChunks(env) + 1 else |env.chunks|
  }

  predicate Breaks(env: Environment)
    requires Covers(env)
  {
    HandledChunks(env) < |env.chunks| || env.sandboxRaises
  }

  function NoticeText(env: Environment): string {
    "[SYSTEM ERROR: " + env.message + "]"
  }

  /** What goes with each publication of the task: those of the attempted chunks, and after an exception one more. */
  function Scripted<T>(env: Environment, during: seq<T>, after: T): seq<T>
    requires Covers(env) && |during| >= |env.chunks|
  {
    during[..AttemptedChunks(env)] + (if Breaks(env) then [after] else [])
  }

  /** The chunks the task publishes, in order. */
  function Script(env: Environment): seq<Chunk>
    requires Covers(env)
  {
    Scripted(env, env.chunks, Chunk(Error, NoticeText(env)))
  }

  function ScriptFaults(env: Environment): seq<Fault>
    requires Covers(env)
  {
    Scripted(env, env.faults, env.faults[|env.chunks|])
  }

  function ScriptWaits(env: Environment): seq<real>
    requires Covers(env)
  {
    Scripted(env, env.waits, env.waits[|env.chunks|])
  }

  /** The frames that reach the channel (`sent`) or the list (`!sent`). */
  function Frames(env: Environment, sent: bool): seq<Frame>
    requires Covers(env)
  {
    Reaching(Numbered(Script(env), 0), ScriptFaults(env), |Script(env)|, sent)
  }

  /** What the task returns, None when an exception leaves it. */
  function TaskOutcome(env: Environment): Option<TaskResult>
    requires Covers(env)
  {
    var done := env.chunks[..HandledChunks(env)];
    if !Breaks(env) then Some(Collected(done, None))
    else if env.faults[|env.chunks|] == NoFault then Some(Collected(done, Some(env.message)))
    else None
  }

  function Collected(done: seq<Chunk>, failure: Option<string>): TaskResult {
    TaskResult(failure, LastReport(done), Concat(PiecesOf(done, Stdout)), Concat(PiecesOf(done, Stderr)))
  }

  function PiecesOf(chunks: seq<Chunk>, e: Event): seq<string> {
    if chunks == [] then []
    else
      var c := chunks[|chunks| - 1];
      PiecesOf(chunks[..|chunks| - 1], e) + (if c.event == e then [c.data] else [])
  }

  /** The loop over the sandbox's chunks: publish, then collect; it ends at the first exception. */
  method PumpChunks(store: StreamStore, multiplexer: StreamMultiplexer, env: Environment)
    returns (raised: bool, stdoutParts: seq<string>, stderrParts: seq<string>, report: Option<string>)
    requires Covers(env) && multiplexer.sequence == 0
    modifies store, multiplexer
    ensures raised == (HandledChunks(env) < |env.chunks|)
    ensures multiplexer.sequence == AttemptedChunks(env)
    ensures store.State()
            == Feed(old(store.State()), Numbered(env.chunks, 0), env.faults, env.waits, AttemptedChunks(env))
    ensures var done := env.chunks[..HandledChunks(env)];
            && stdoutParts == PiecesOf(done, Stdout) && stderrParts == PiecesOf(done, Stderr)
            && report == LastReport(done)
  {
    hide Published, Elapsed, Handled;
    stdoutParts, stderrParts, report, raised := [], [], None, false;
    ghost var frames := Numbered(env.chunks, 0);
    var i := 0;
    while i < |env.chunks|
      invariant 0 <= i <= |env.chunks| && !raised
      invariant multiplexer.sequence == i
      invariant forall j :: 0 <= j < i ==> env.faults[j] == NoFault
      invariant store.State() == Feed(old(store.State()), frames, env.faults, env.waits, i)
      invariant stdoutParts == PiecesOf(env.chunks[..i], Stdout) && stderrParts == PiecesOf(env.chunks[..i], Stderr)
      invariant report == LastReport(env.chunks[..i])
    {
      store.PassTime(env.waits[i]);
      var chunk := env.chunks[i];
      raised := multiplexer.PublishChunk(store, chunk, env.faults[i]);
      assert frames[i] == Frame(i, chunk.event, chunk.data);
      if raised {
        break;
      }
      assert env.chunks[..i + 1][..i] == env.chunks[..i];
      if chunk.event == Stdout {
        stdoutParts := stdoutParts + [chunk.data];
      } else if chunk.event == Stderr {
        stderrParts := stderrParts + [chunk.data];
      } else if chunk.event == Complete {
        report := Some(chunk.data);
      }
      i := i + 1;
    }
    assert HandledChunks(env) == i;
  }

  /**
    The task: after an exception it publishes one error chunk, and an exception of that publication leaves
    the task without a result.
   */
  method StreamAndCollect(store: StreamStore, env: Environment) returns (result: Option<TaskResult>)
    requires Covers(env)
    modifies store
    ensures store.State()
            == Feed(old(store.State()), Numbered(Script(env), 0), ScriptFaults(env), ScriptWaits(env), |Script(env)|)
    ensures store.channel == old(store.channel) + Frames(env, true)
    ensures store.pushed == old(store.pushed) + Frames(env, false)
    ensures result == TaskOutcome(env)
  {
    hide PiecesOf, LastReport, Handled, Published, Elapsed;
    var multiplexer := new StreamMultiplexer();
    var raised, stdoutParts, stderrParts, report := PumpChunks(store, multiplexer, env);
    ghost var (before, script) := (old(store.State()), Numbered(Script(env), 0));
    ghost var n := AttemptedChunks(env);
    FeedUsesFirst(before, Numbered(env.chunks, 0), env.faults, env.waits,
                  script, ScriptFaults(env), ScriptWaits(env), n);
    FeedReaches(before, script, ScriptFaults(env), ScriptWaits(env), |script|);
    var failure := None;
    if raised || env.sandboxRaises {
      failure := Some(env.message);
      store.PassTime(env.waits[|env.chunks|]);
      assert script[n] == Frame(n, Error, NoticeText(env));
      var again := multiplexer.PublishChunk(store, Chunk(Error, NoticeText(env)), env.faults[|env.chunks|]);
      if again {
        return None;
      }
    }
    result := Some(TaskResult(failure, report, Concat(stdoutParts), Concat(stderrParts)));
  }

  lemma {:induction false} FeedUsesFirst(
    st: StoreState, frames: seq<Frame>, faults: seq<Fault>, waits: seq<real>,
    frames': seq<Frame>, faults': seq<Fault>, waits': seq<real>, n: nat)
    requires n <= |frames| && n <= |faults| && n <= |waits| && n <= |frames'| && n <= |faults'| && n <= |waits'|
    requires forall i :: 0 <= i < n ==> (frames[i], faults[i], waits[i]) == (frames'[i], faults'[i], waits'[i])
    ensures Feed(st, frames, faults, waits, n) == Feed(st, frames', faults', waits', n)
  {
    if n > 0 {
      FeedUsesFirst(st, frames, faults, waits, frames', faults', waits', n - 1);
    }
  }

  // ---------- Laws ----------

  lemma {:induction false} PiecesAreText(chunks: seq<Chunk>, e: Event)
    ensures Concat(PiecesOf(chunks, e)) == TextOf(chunks, e)
  {
    if chunks != [] {
      var (init, c) := (chunks[..|chunks| - 1], chunks[|chunks| - 1]);
      PiecesAreText(init, e);
      assert chunks == init + [c];
      TextOfSnoc(init, c, e);
      ConcatSnoc(PiecesOf(init, e), c.data);
      assert PiecesOf(init, e) + [] == PiecesOf(init, e);
    }
  }

  /**
    Without faults every chunk reaches the channel and the list under its own number, and the result is
    the stream's text.
   */
  lemma FaultFreeTask(env: Environment)
    requires Covers(env) && !env.sandboxRaises
    requires forall i :: 0 <= i < |env.chunks| ==> env.faults[i] == NoFault
    ensures Frames(env, true) == Frames(env, false) == Numbered(env.chunks, 0)
    ensures TaskOutcome(env)
            == Some(TaskResult(None, LastReport(env.chunks), TextOf(env.chunks, Stdout), TextOf(env.chunks, Stderr)))
  {
    hide Reaching;
    assert Script(env) == env.chunks[..|env.chunks|] == env.chunks;
    var n := |env.chunks|;
    ReachingWell(Numbered(env.chunks, 0), ScriptFaults(env), n, n, true);
    ReachingWell(Numbered(env.chunks, 0), ScriptFaults(env), n, n, false);
    PiecesAreText(env.chunks, Stdout);
    PiecesAreText(env.chunks, Stderr);
  }

  /** The chunk whose publication raised, as a frame. */
  function Attempt(env: Environment): Frame
    requires Covers(env) && HandledChunks(env) < |env.chunks|
  {
    var k := HandledChunks(env);
    Frame(k, env.chunks[k].event, env.chunks[k].data)
  }

  /** The error frame published after an exception; a number taken by a failed attempt is not used again. */
  function Notice(env: Environment): Frame
    requires Covers(env)
  {
    Frame(AttemptedChunks(env), Error, NoticeText(env))
  }

  /** The frames of a task: the handled chunks, the chunk that failed as far as it got, the error chunk likewise. */
  lemma FramesOfTask(env: Environment, sent: bool)
    requires Covers(env)
    ensures var k := HandledChunks(env);
            Frames(env, sent)
            == Numbered(env.chunks[..k], 0)
               + (if k < |env.chunks| then When(Reached(env.faults[k], sent), Attempt(env)) else [])
               + (if Breaks(env) then When(Reached(env.faults[|env.chunks|], sent), Notice(env)) else [])
  {
    var (k, n) := (HandledChunks(env), AttemptedChunks(env));
    var (frames, faults) := (Numbered(Script(env), 0), ScriptFaults(env));
    ReachingWell(frames, faults, k, k, sent);
    assert frames[..k] == Numbered(env.chunks[..k], 0);
    assert Reaching(frames, faults, n, sent)
           == frames[..k] + (if k < n then When(Reached(faults[k], sent), frames[k]) else []);
  }

  predicate Increasing(frames: seq<Frame>) {
    && (forall i :: 0 <= i < |frames| ==> frames[i].Frame? && frames[i].sequence >= 0)
    && (forall i, j :: 0 <= i < j < |frames| && frames[i].Frame? && frames[j].Frame? ==>
          frames[i].sequence < frames[j].sequence)
  }

  /** At most one number below the last one is missing. */
  predicate NearlyContiguous(frames: seq<Frame>) {
    && Increasing(frames)
    && (frames != [] ==> |frames| <= frames[|frames| - 1].sequence + 1 <= |frames| + 1)
  }

  lemma TailIsOrdered(done: seq<Chunk>, a: seq<Frame>, b: seq<Frame>)
    requires |a| <= 1 && |b| <= 1
    requires a != [] ==> a[0].Frame? && a[0].sequence == |done|
    requires b != [] ==> b[0].Frame? && |done| + |a| <= b[0].sequence <= |done| + 1
    ensures NearlyContiguous(Numbered(done, 0) + a + b)
  {
    var frames := Numbered(done, 0) + a + b;
    assert forall i :: 0 <= i < |done| ==> frames[i].Frame? && frames[i].sequence == i;
    assert a != [] ==> frames[|done|] == a[0];
    assert b != [] ==> frames[|done| + |a|] == b[0];
  }

  lemma FramesAreOrdered(env: Environment, sent: bool)
    requires Covers(env)
    ensures NearlyContiguous(Frames(env, sent))
  {
    hide Handled, NoticeText, Numbered, NearlyContiguous, Frames;
    var k := HandledChunks(env);
    var a := if k < |env.chunks| then When(Reached(env.faults[k], sent), Attempt(env)) else [];
    var b := if Breaks(env) then When(Reached(env.faults[|env.chunks|], sent), Notice(env)) else [];
    FramesOfTask(env, sent);
    TailIsOrdered(env.chunks[..k], a, b);
  }

  /**
    Whatever fails, the numbers in the channel and in the list strictly increase, and at most one
    number below the last one is missing; the list holds no frame that was not published; and the
    text of a result is that of the chunks handled before the failure.
   */
  lemma FaultyTaskStaysOrdered(env: Environment)
    requires Covers(env)
    ensures NearlyContiguous(Frames(env, true)) && NearlyContiguous(Frames(env, false))
    ensures forall f :: f in Frames(env, false) ==> f in Frames(env, true)
    ensures var o := TaskOutcome(env);
            o.Some? ==> o.value.stdout == TextOf(env.chunks[..HandledChunks(env)], Stdout)
  {
    hide Handled, NoticeText, Frames;
    FramesOfTask(env, true);
    FramesOfTask(env, false);
    PiecesAreText(env.chunks[..HandledChunks(env)], Stdout);
    FramesAreOrdered(env, true);
    FramesAreOrdered(env, false);
  }

  lemma {:induction false} PiecesOfSplits(a: seq<Chunk>, b: seq<Chunk>, e: Event)
    ensures PiecesOf(a + b, e) == PiecesOf(a, e) + PiecesOf(b, e)
  {
    if b == [] {
      assert a + b == a;
    } else {
      assert (a + b)[..|a + b| - 1] == a + b[..|b| - 1];
      PiecesOfSplits(a, b[..|b| - 1], e);
    }
  }

  lemma PiecesOfOne(c: Chunk, e: Event)
    ensures PiecesOf([c], e) == if c.event == e then [c.data] else []
  {
    assert [c][..0] == [];
  }

  lemma {:induction false} PiecesOfNone(chunks: seq<Chunk>, e: Event)
    requires HasNone(chunks, e)
    ensures PiecesOf(chunks, e) == []
  {
    if chunks != [] {
      PiecesOfNone(chunks[..|chunks| - 1], e);
    }
  }

  /** Chunk `i` is the last one with event `e`. */
  predicate IsLast(chunks: seq<Chunk>, i: nat, e: Event) {
    i < |chunks| && chunks[i].event == e && forall j :: i < j < |chunks| ==> chunks[j].event != e
  }

  predicate HasNone(chunks: seq<Chunk>, e: Event) {
    forall i :: 0 <= i < |chunks| ==> chunks[i].event != e
  }

  lemma LastSnoc(init: seq<Chunk>, c: Chunk, e: Event)
    ensures HasNone(init + [c], e) <==> HasNone(init, e) && c.event != e
    ensures forall i: nat ::
              IsLast(init + [c], i, e) <==> if c.event == e then i == |init| else IsLast(init, i, e)
  {
    var chunks := init + [c];
    assert forall i :: 0 <= i < |init| ==> chunks[i] == init[i];
    assert chunks[|init|] == c;
  }

  lemma LastReportSnoc(init: seq<Chunk>, c: Chunk)
    ensures LastReport(init + [c]) == if c.event == Complete then Some(c.data) else LastReport(init)
  {
    assert (init + [c])[..|init|] == init;
  }

  /** The report is that of the last COMPLETE chunk, and there is none without one. */
  lemma {:induction false} LastReportIs(chunks: seq<Chunk>)
    ensures HasNone(chunks, Complete) ==> LastReport(chunks) == None
    ensures forall i: nat :: IsLast(chunks, i, Complete) ==> LastReport(chunks) == Some(chunks[i].data)
  {
    if chunks != [] {
      var (init, c) := (chunks[..|chunks| - 1], chunks[|chunks| - 1]);
      LastReportIs(init);
      assert chunks == init + [c];
      LastSnoc(init, c, Complete);
      LastReportSnoc(init, c);
      hide LastReport, HasNone;
      assert forall i: nat :: i < |init| ==> chunks[i] == init[i];
    }
  }

  /**
    What a task returns. It returns nothing exactly when the publication of its error chunk fails.
    Otherwise it says that it failed, and why, exactly when the sandbox raised or the publication of a
    chunk failed; it returns the text of both streams up to there; and its report is the data of the last
    COMPLETE chunk up to there, or missing if there is none. The error chunk it publishes names the cause.
   */
  lemma TaskReports(env: Environment)
    requires Covers(env)
    ensures var broken := env.sandboxRaises || exists i :: 0 <= i < |env.chunks| && env.faults[i] != NoFault;
            var (handled, o) := (env.chunks[..HandledChunks(env)], TaskOutcome(env));
            && (o.None? <==> broken && env.faults[|env.chunks|] != NoFault)
            && (o.Some? ==>
                  && o.value.failure == (if broken then Some(env.message) else None)
                  && o.value.stdout == TextOf(handled, Stdout) && o.value.stderr == TextOf(handled, Stderr)
                  && (HasNone(handled, Complete) ==> o.value.report == None)
                  && (forall i: nat :: IsLast(handled, i, Complete) ==> o.value.report == Some(handled[i].data)))
            && Script(env) == env.chunks[..AttemptedChunks(env)]
                              + (if broken then [Chunk(Error, "[SYSTEM ERROR: " + env.message + "]")] else [])
  {
    hide Handled, LastReport, PiecesOf, IsLast, HasNone, TextOf, Concat;
    var handled := env.chunks[..HandledChunks(env)];
    PiecesAreText(handled, Stdout);
    PiecesAreText(handled, Stderr);
    LastReportIs(handled);
  }

  /** Reading the list from an index returns its frames from there on; a negative index counts from the end. */
  lemma CatchUpFromIndex(list: seq<Frame>, start: int)
    ensures 0 <= start <= |list| ==> LRange(list, start, -1) == list[start..]
    ensures start > |list| ==> LRange(list, start, -1) == []
    ensures -|list| <= start < 0 ==> LRange(list, start, -1) == list[|list| + start..]
    ensures start < -|list| ==> LRange(list, start, -1) == list
  {
    if 0 <= start <= |list| {
      assert list[start..|list|] == list[start..];
    } else if -|list| <= start < 0 {
      var from := |list| + start;
      assert list[from..|list|] == list[from..];
    } else {
      assert list[0..|list|] == list;
    }
  }
}
