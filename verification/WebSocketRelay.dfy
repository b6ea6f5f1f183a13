/**
  The downstream half of the backend's WebSocket endpoint: it replays the list snapshot, then follows
  the subscribed channel, and lets a well-formed frame through only when its number is higher than
  every number let through before.
 */
module WebSocketRelay {
  import opened Models
  import opened Streaming

  datatype Relay = Relay(lastSeq: int, sent: seq<Frame>)

  const NEW_RELAY := Relay(-1, [])

  /** One frame passes the filter. Text that does not parse is sent as it is. */
  function Offer(r: Relay, f: Frame): Relay {
    if f.Garbled? then r.(sent := r.sent + [f])
    else if f.sequence > r.lastSeq then Relay(f.sequence, r.sent + [f])
    else r
  }

  function OfferAll(r: Relay, frames: seq<Frame>): Relay {
    if frames == [] then r
    else Offer(OfferAll(r, frames[..|frames| - 1]), frames[|frames| - 1])
  }

  /** A live frame after which the connection is closed, even if the filter withheld it. */
  predicate Stops(f: Frame) {
    f.Frame? && (f.event == Complete || f.event == Error)
  }

  predicate HasEvent(f: Frame, events: set<Event>) {
    f.Frame? && f.event in events
  }

  /**
    One connection: `buffered` is the list snapshot, `channel` what the subscription delivers until
    the client goes away.
   */
  method DownstreamPump(buffered: seq<Frame>, channel: seq<Frame>) returns (r: Relay, taken: nat, stopped: bool)
    ensures taken <= |channel|
    ensures r == OfferAll(OfferAll(NEW_RELAY, buffered), channel[..taken])
    ensures stopped <==> taken > 0 && HasEvent(channel[taken - 1], {Complete, Error})
    ensures !stopped ==> taken == |channel|
    ensures forall i :: 0 <= i < taken - 1 ==> !HasEvent(channel[i], {Complete, Error})
    ensures Filtered(r)
  {
    hide OfferAll, Filtered, HasEvent;
    r := NEW_RELAY;
    NothingOffered(r, buffered);
    for i := 0 to |buffered|
      invariant r == OfferAll(NEW_RELAY, buffered[..i])
    {
      OneOffered(NEW_RELAY, buffered, i);
      if buffered[i].Garbled? {
        r := r.(sent := r.sent + [buffered[i]]);
      } else if buffered[i].sequence > r.lastSeq {
        r := Relay(buffered[i].sequence, r.sent + [buffered[i]]);
      }
    }
    assert buffered[..|buffered|] == buffered;
    ghost var replayed := r;
    taken, stopped := 0, false;
    NothingOffered(replayed, channel);
    while taken < |channel| && !stopped
      invariant taken <= |channel|
      invariant r == OfferAll(replayed, channel[..taken])
      invariant stopped <==> taken > 0 && HasEvent(channel[taken - 1], {Complete, Error})
      invariant forall i :: 0 <= i < taken - 1 ==> !HasEvent(channel[i], {Complete, Error})
    {
      var f := channel[taken];
      OneOffered(replayed, channel, taken);
      FinalEvents(f);
      if f.Garbled? {
        r := r.(sent := r.sent + [f]);
      } else {
        if f.sequence > r.lastSeq {
          r := Relay(f.sequence, r.sent + [f]);
        }
        stopped := f.event == Complete || f.event == Error;
      }
      taken := taken + 1;
    }
    NewRelayIsFiltered();
    SentNumbersIncrease(NEW_RELAY, buffered);
    SentNumbersIncrease(replayed, channel[..taken]);
  }

  lemma NewRelayIsFiltered()
    ensures Filtered(NEW_RELAY)
  {
  }

  lemma NothingOffered(r: Relay, frames: seq<Frame>)
    ensures OfferAll(r, frames[..0]) == r
  {
  }

  lemma OneOffered(r: Relay, frames: seq<Frame>, i: nat)
    requires i < |frames|
    ensures OfferAll(r, frames[..i + 1]) == Offer(OfferAll(r, frames[..i]), frames[i])
  {
    assert frames[..i + 1][..i] == frames[..i];
  }

  lemma FinalEvents(f: Frame)
    ensures HasEvent(f, {Complete, Error}) <==> f.Frame? && (f.event == Complete || f.event == Error)
  {
  }

  /** The numbers of the well-formed frames, in order. */
  function Sequences(frames: seq<Frame>): seq<int> {
    if frames == [] then []
    else
      var f := frames[|frames| - 1];
      Sequences(frames[..|frames| - 1]) + (if f.Frame? then [f.sequence] else [])
  }

  lemma SequencesSnoc(frames: seq<Frame>, f: Frame)
    ensures Sequences(frames + [f]) == Sequences(frames) + (if f.Frame? then [f.sequence] else [])
  {
    assert (frames + [f])[..|frames|] == frames;
  }

  predicate StrictlyIncreasing(ns: seq<int>) {
    forall i, j :: 0 <= i < j < |ns| ==> ns[i] < ns[j]
  }

  /** The filter's state: the last number sent, above all earlier ones. */
  predicate Filtered(r: Relay) {
    var ns := Sequences(r.sent);
    && StrictlyIncreasing(ns)
    && (forall i :: 0 <= i < |ns| ==> 0 <= ns[i])
    && r.lastSeq == (if ns == [] then -1 else ns[|ns| - 1])
  }

  /**
    For arbitrary contents of list and channel, even those of a task that ran twice, the well-formed
    frames sent on one connection have strictly increasing numbers.
   */
  lemma {:induction false} SentNumbersIncrease(r: Relay, frames: seq<Frame>)
    requires Filtered(r)
    ensures Filtered(OfferAll(r, frames))
  {
    if frames != [] {
      var (init, f) := (frames[..|frames| - 1], frames[|frames| - 1]);
      SentNumbersIncrease(r, init);
      SequencesSnoc(OfferAll(r, init).sent, f);
    }
  }

  /** Frame `i` is plain text, or has a number above those of all frames before it. */
  predicate IsRecord(frames: seq<Frame>, i: nat)
    requires i < |frames|
  {
    || frames[i].Garbled?
    || (frames[i].sequence >= 0
        && forall j :: 0 <= j < i && frames[j].Frame? ==> frames[j].sequence < frames[i].sequence)
  }

  function Records(frames: seq<Frame>): seq<Frame> {
    if frames == [] then []
    else
      var n := |frames| - 1;
      Records(frames[..n]) + (if IsRecord(frames, n) then [frames[n]] else [])
  }

  /** For any frames whatever, exactly the records are sent, in their order. */
  lemma {:induction false} RelaySendsRecords(frames: seq<Frame>)
    ensures OfferAll(NEW_RELAY, frames).sent == Records(frames)
    ensures var last := OfferAll(NEW_RELAY, frames).lastSeq;
            forall j :: 0 <= j < |frames| && frames[j].Frame? ==> frames[j].sequence <= last
    ensures var last := OfferAll(NEW_RELAY, frames).lastSeq;
            last == -1 || exists j :: 0 <= j < |frames| && frames[j].Frame? && frames[j].sequence == last
    ensures OfferAll(NEW_RELAY, frames).lastSeq >= -1
  {
    if frames != [] {
      var n := |frames| - 1;
      RelaySendsRecords(frames[..n]);
      assert forall j :: 0 <= j < n ==> frames[..n][j] == frames[j];
    }
  }

  /** A frame is withheld only if its number is negative or an earlier frame had at least its number. */
  lemma {:induction false} WithheldOnlyIfPassed(frames: seq<Frame>, i: nat)
    requires i < |frames| && frames[i].Frame? && frames[i].sequence >= 0
    requires forall j :: 0 <= j < i && frames[j].Frame? ==> frames[j].sequence < frames[i].sequence
    ensures frames[i] in OfferAll(NEW_RELAY, frames).sent
    decreases |frames|
  {
    var init := frames[..|frames| - 1];
    if i == |frames| - 1 {
      LastIsBounded(init, frames[i].sequence);
    } else {
      assert init[i] == frames[i];
      WithheldOnlyIfPassed(init, i);
    }
  }

  lemma {:induction false} LastIsBounded(frames: seq<Frame>, bound: int)
    requires bound >= 0 && forall j :: 0 <= j < |frames| && frames[j].Frame? ==> frames[j].sequence < bound
    ensures OfferAll(NEW_RELAY, frames).lastSeq < bound
  {
    if frames != [] {
      LastIsBounded(frames[..|frames| - 1], bound);
    }
  }
}
