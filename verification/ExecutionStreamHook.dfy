/**
  The browser's stream hook: what a (re)connection resets and what one received message does.
 */
module ExecutionStreamHook {
  import opened Models
  import opened Streaming
  import WebSocketRelay

  datatype Kind = OutText | ErrText | StatusText | SystemText

  datatype UiChunk = UiChunk(kind: Kind, data: string, sequence: int)

  datatype Client = Client(chunks: seq<UiChunk>, highest: int, terminated: bool)

  const NEW_CLIENT := Client([], -1, false)

  function KindOf(e: Event): Kind {
    match e
    case Stdout => OutText
    case Stderr => ErrText
    case Error => ErrText
    case Status => StatusText
    case Complete => SystemText
  }

  /** Shown when the run is complete; the exit code and the hint about missing output are display details. */
  const COMPLETION_BANNER := "[Process completed]"

  function OnMessage(c: Client, f: Frame): Client {
    if f.Garbled? || f.sequence <= c.highest then c
    else if f.event == Complete then
      Client(c.chunks + [UiChunk(SystemText, COMPLETION_BANNER, f.sequence + 1)], f.sequence, true)
    else
      Client(c.chunks + [UiChunk(KindOf(f.event), f.data, f.sequence)], f.sequence, c.terminated)
  }

  function OnMessages(c: Client, frames: seq<Frame>): Client {
    if frames == [] then c
    else OnMessage(OnMessages(c, frames[..|frames| - 1]), frames[|frames| - 1])
  }

  class ExecutionStream {
    var chunks: seq<UiChunk>
    var highestSequence: int
    var isTerminated: bool

    function State(): Client
      reads this
    {
      Client(chunks, highestSequence, isTerminated)
    }

    constructor ()
      ensures State() == NEW_CLIENT
    {
      chunks, highestSequence, isTerminated := [], -1, false;
    }

    /** Every connection, also an automatic reconnection, starts from nothing. */
    method ConnectToStream()
      modifies this
      ensures State() == NEW_CLIENT
    {
      chunks, highestSequence, isTerminated := [], -1, false;
    }

    method HandleMessage(f: Frame)
      modifies this
      ensures State() == OnMessage(old(State()), f)
    {
      if f.Garbled? || f.sequence <= highestSequence {
        return;
      }
      highestSequence := f.sequence;
      if f.event == Complete {
        isTerminated := true;
        chunks := chunks + [UiChunk(SystemText, COMPLETION_BANNER, f.sequence + 1)];
        return;
      }
      chunks := chunks + [UiChunk(KindOf(f.event), f.data, f.sequence)];
    }
  }

  /** The standard output on the screen. */
  function Shown(chunks: seq<UiChunk>): string {
    if chunks == [] then ""
    else
      var c := chunks[|chunks| - 1];
      Shown(chunks[..|chunks| - 1]) + (if c.kind == OutText then c.data else "")
  }

  lemma ShownSnoc(chunks: seq<UiChunk>, c: UiChunk)
    ensures Shown(chunks + [c]) == Shown(chunks) + (if c.kind == OutText then c.data else "")
  {
    assert (chunks + [c])[..|chunks|] == chunks;
  }

  function Payloads(frames: seq<Frame>): seq<Chunk>
    requires forall i :: 0 <= i < |frames| ==> frames[i].Frame?
  {
    seq(|frames|, i requires 0 <= i < |frames| => Chunk(frames[i].event, frames[i].data))
  }

  /** A frame with a higher number than all before it is accepted and shown. */
  lemma AcceptedIsShown(c: Client, f: Frame)
    requires f.Frame? && f.sequence > c.highest
    ensures OnMessage(c, f).highest == f.sequence
    ensures Shown(OnMessage(c, f).chunks) == Shown(c.chunks) + (if f.event == Stdout then f.data else "")
  {
    var added := if f.event == Complete then UiChunk(SystemText, COMPLETION_BANNER, f.sequence + 1)
                 else UiChunk(KindOf(f.event), f.data, f.sequence);
    ShownSnoc(c.chunks, added);
  }

  lemma PayloadsSnoc(init: seq<Frame>, f: Frame)
    requires f.Frame? && forall i :: 0 <= i < |init| ==> init[i].Frame?
    ensures Payloads(init + [f]) == Payloads(init) + [Chunk(f.event, f.data)]
  {
  }

  /** Frames in strictly increasing order are all accepted: the screen shows exactly their standard output. */
  lemma {:induction false} ShowsWhatItReceives(frames: seq<Frame>)
    requires Increasing(frames)
    ensures Shown(OnMessages(NEW_CLIENT, frames).chunks) == TextOf(Payloads(frames), Stdout)
    ensures OnMessages(NEW_CLIENT, frames).highest == if frames == [] then -1 else frames[|frames| - 1].sequence
  {
    hide OnMessage, TextOf, Shown, Payloads;
    if frames == [] {
      NothingShown();
    } else {
      var (init, f) := (frames[..|frames| - 1], frames[|frames| - 1]);
      assert frames == init + [f];
      ShowsWhatItReceives(init);
      AcceptedIsShown(OnMessages(NEW_CLIENT, init), f);
      PayloadsSnoc(init, f);
      TextOfSnoc(Payloads(init), Chunk(f.event, f.data), Stdout);
    }
  }

  lemma NothingShown()
    ensures Shown([]) == TextOf(Payloads([]), Stdout) == ""
  {
    assert Payloads([]) == [];
  }

  // ---------- Everything the browser does with frames ----------

  /** The frames the browser takes: those with a number above all before. */
  function Taken(frames: seq<Frame>): (r: seq<Frame>)
    ensures forall f :: f in r ==> f.Frame?
  {
    if frames == [] then []
    else
      var n := |frames| - 1;
      Taken(frames[..n]) + (if frames[n].Frame? && WebSocketRelay.IsRecord(frames, n) then [frames[n]] else [])
  }

  /** The chunk shows the frame: its text under its kind; a final frame becomes the banner, numbered one higher. */
  predicate Shows(c: UiChunk, f: Frame) {
    && f.Frame?
    && (c.kind == OutText <==> f.event == Stdout)
    && (c.kind == ErrText <==> f.event == Stderr || f.event == Error)
    && (c.kind == StatusText <==> f.event == Status)
    && (f.event != Complete ==> c.data == f.data && c.sequence == f.sequence)
    && (f.event == Complete ==> c.data == "[Process completed]" && c.sequence == f.sequence + 1)
  }

  lemma OneMessage(c: Client, f: Frame)
    ensures var c' := OnMessage(c, f);
            if f.Frame? && f.sequence > c.highest then
              && |c'.chunks| == |c.chunks| + 1 && c'.chunks[..|c.chunks|] == c.chunks
              && Shows(c'.chunks[|c.chunks|], f)
              && c'.highest == f.sequence && (c'.terminated <==> c.terminated || f.event == Complete)
            else c' == c
  {
  }

  /** The browser remembers the highest number so far, -1 before the first. */
  lemma {:induction false} BrowserRemembersHighest(frames: seq<Frame>)
    ensures var highest := OnMessages(NEW_CLIENT, frames).highest;
            && highest >= -1
            && (forall j :: 0 <= j < |frames| && frames[j].Frame? ==> frames[j].sequence <= highest)
            && (highest == -1 || exists j :: 0 <= j < |frames| && frames[j].Frame? && frames[j].sequence == highest)
  {
    hide Shows, OnMessage;
    if frames != [] {
      var n := |frames| - 1;
      BrowserRemembersHighest(frames[..n]);
      OneMessage(OnMessages(NEW_CLIENT, frames[..n]), frames[n]);
      assert forall j :: 0 <= j < n ==> frames[..n][j] == frames[j];
    }
  }

  /** So the next frame is taken exactly if it has a number above all before. */
  lemma RecordIffHigher(frames: seq<Frame>)
    requires frames != [] && frames[|frames| - 1].Frame?
    ensures var n := |frames| - 1;
            WebSocketRelay.IsRecord(frames, n) <==> frames[n].sequence > OnMessages(NEW_CLIENT, frames[..n]).highest
  {
    hide OnMessages;
    var n := |frames| - 1;
    BrowserRemembersHighest(frames[..n]);
    assert forall j :: 0 <= j < n ==> frames[..n][j] == frames[j];
  }

  /**
    For any frames whatever, also duplicates and text that does not parse: the browser shows exactly the
    frames with a number above all before, in order, each under its kind, and counts the run as over
    exactly when a final frame was among them.
   */
  lemma {:induction false} BrowserShowsTaken(frames: seq<Frame>)
    ensures var (c, taken) := (OnMessages(NEW_CLIENT, frames), Taken(frames));
            && |c.chunks| == |taken|
            && (forall i :: 0 <= i < |taken| ==> Shows(c.chunks[i], taken[i]))
            && (c.terminated <==> exists i :: 0 <= i < |taken| && taken[i].event == Complete)
  {
    hide Shows, OnMessage, WebSocketRelay.IsRecord;
    if frames != [] {
      var n := |frames| - 1;
      BrowserShowsTaken(frames[..n]);
      var (c, taken) := (OnMessages(NEW_CLIENT, frames[..n]), Taken(frames[..n]));
      OneMessage(c, frames[n]);
      if frames[n].Frame? {
        RecordIffHigher(frames);
      }
      ShowsOneMore(c, OnMessage(c, frames[n]), taken, frames[n]);
    }
  }

  /** One more chunk for one more frame. */
  lemma ShowsOneMore(c: Client, c': Client, taken: seq<Frame>, f: Frame)
    requires |c.chunks| == |taken| && forall i :: 0 <= i < |taken| ==> Shows(c.chunks[i], taken[i])
    requires forall g :: g in taken ==> g.Frame?
    requires c.terminated <==> exists i :: 0 <= i < |taken| && taken[i].event == Complete
    ensures && f.Frame? && |c'.chunks| == |c.chunks| + 1 && c'.chunks[..|c.chunks|] == c.chunks
            && Shows(c'.chunks[|c.chunks|], f) && (c'.terminated <==> c.terminated || f.event == Complete) ==>
              && (forall i :: 0 <= i <= |taken| ==> Shows(c'.chunks[i], (taken + [f])[i]))
              && (c'.terminated <==> exists i :: 0 <= i <= |taken| && (taken + [f])[i].event == Complete)
  {
    hide Shows;
    if |c'.chunks| == |c.chunks| + 1 && c'.chunks[..|c.chunks|] == c.chunks {
      assert forall i :: 0 <= i < |taken| ==> c'.chunks[i] == c.chunks[i] && (taken + [f])[i] == taken[i];
      assert (taken + [f])[|taken|] == f;
    }
  }
}
