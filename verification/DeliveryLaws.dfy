/**
  What one connection delivers, over every interleaving of worker, clock, connection and browser.
 */
module DeliveryLaws {
  import opened Models
  import opened Streaming
  import opened WebSocketRelay
  import opened ExecutionStreamHook
  import opened Delivery

  // ---------- The worker and the list ----------

  predicate InNumberOrder(frames: seq<Frame>) {
    forall i :: 0 <= i < |frames| ==> frames[i].Frame? && frames[i].sequence == i
  }

  predicate AllWell(faults: seq<Fault>) {
    forall i :: 0 <= i < |faults| ==> faults[i] == NoFault
  }

  /** Number of frames with which the worker is done, or had both effects at least. */
  function Done(s: Net): nat {
    if s.worker.Half? && s.formatted != [] then |s.formatted| - 1 else |s.formatted|
  }

  /** Number of frames whose publication has been attempted. */
  function Announced(s: Net): nat {
    if s.order == PublishFirst then |s.formatted| else Done(s)
  }

  /** Number of frames whose appending has been attempted. */
  function Stowed(s: Net): nat {
    if s.order == PublishFirst then Done(s) else |s.formatted|
  }

  /** Number of frames before the first one with a fault. */
  function Clean(s: Net): nat {
    Handled(s.faults, |s.faults|)
  }

  /** The list is a contiguous run of the appended frames that ends with the newest one. */
  predicate ListInvariant(s: Net) {
    && s.dropped <= |s.listed|
    && s.buffer == s.listed[s.dropped..]
    && (s.deadline.Some? ==> s.deadline.value == s.refreshedAt + s.ttl)
  }

  predicate WorkerInvariant(s: Net) {
    && InNumberOrder(s.formatted) && |s.faults| == |s.formatted|
    && ((s.faulty && s.order == PublishFirst) || AllWell(s.faults))
    && (s.worker.Half? ==>
          && s.formatted != [] && s.worker.frame == s.formatted[|s.formatted| - 1]
          && s.worker.fault == s.faults[|s.faults| - 1] && !s.worker.fault.PublishRaises?)
    && s.channel == Reaching(s.formatted, s.faults, Announced(s), true)
    && s.listed == Reaching(s.formatted, s.faults, Stowed(s), false)
    && ListInvariant(s)
  }

  lemma {:induction false} ReachingUsesFirst(
    frames: seq<Frame>, faults: seq<Fault>, f: Frame, x: Fault, n: nat, sent: bool)
    requires n <= |frames| == |faults|
    ensures Reaching(frames + [f], faults + [x], n, sent) == Reaching(frames, faults, n, sent)
    decreases n
  {
    if n > 0 {
      ReachingUsesFirst(frames, faults, f, x, n - 1, sent);
    }
  }

  lemma ReachingSnoc(frames: seq<Frame>, faults: seq<Fault>, f: Frame, x: Fault, sent: bool)
    requires |frames| == |faults|
    ensures var n := |frames|;
            && Reaching(frames + [f], faults + [x], n, sent) == Reaching(frames, faults, n, sent)
            && Reaching(frames + [f], faults + [x], n + 1, sent)
               == Reaching(frames, faults, n, sent) + When(Reached(x, sent), f)
  {
    ReachingUsesFirst(frames, faults, f, x, |frames|, sent);
  }

  lemma EmitKeepsWorker(s: Net, chunk: Chunk, fault: Fault)
    requires WorkerInvariant(s) && Enabled(s, Emit(chunk, fault))
    ensures WorkerInvariant(Next(s, Emit(chunk, fault)))
  {
    hide Reaching;
    var f := Frame(|s.formatted|, chunk.event, chunk.data);
    ReachingSnoc(s.formatted, s.faults, f, fault, true);
    ReachingSnoc(s.formatted, s.faults, f, fault, false);
  }

  /** The last frame is the one whose second call is due. */
  lemma ReachingLast(s: Net, sent: bool)
    requires WorkerInvariant(s) && s.worker.Half?
    ensures var n := |s.formatted| - 1;
            Reaching(s.formatted, s.faults, n + 1, sent)
            == Reaching(s.formatted, s.faults, n, sent) + When(Reached(s.worker.fault, sent), s.worker.frame)
  {
    hide InNumberOrder, AllWell, ListInvariant, Reached;
  }

  lemma SecondKeepsWorker(s: Net)
    requires WorkerInvariant(s) && s.worker.Half?
    ensures WorkerInvariant(Next(s, Second))
  {
    ReachingLast(s, s.order != PublishFirst);
    hide InNumberOrder, Reaching;
    if s.order == PublishFirst {
      assert s.listed + [] == s.listed;
      TailGrows(s.listed, s.dropped, s.worker.frame);
    }
  }

  lemma TailGrows(listed: seq<Frame>, d: nat, f: Frame)
    requires d <= |listed|
    ensures (listed + [f])[d..] == listed[d..] + [f]
  {
  }

  lemma WorkerIsKept(s: Net, l: Label)
    requires WorkerInvariant(s) && Enabled(s, l)
    ensures WorkerInvariant(Next(s, l))
  {
    hide InNumberOrder, AllWell, FirstCall, SecondCall, Offer, OnMessage, LRange, Follow, Reaching;
    match l
    case Emit(chunk, fault) => EmitKeepsWorker(s, chunk, fault);
    case Second => SecondKeepsWorker(s);
    case _ =>
  }

  // ---------- The connection ----------

  function Min(a: nat, b: nat): nat {
    if a < b then a else b
  }

  /** Frames published before the subscription that the snapshot missed, if nothing failed: at most one,
      and none if the worker appended first. */
  function Slack(order: Order): nat {
    if order == PublishFirst then 1 else 0
  }

  /** What the filter makes of the snapshot and the channel. */
  function Relayed(channel: seq<Frame>, listed: seq<Frame>, c: Conn): Relay
    requires c.low <= c.high <= |listed| && c.joinedAt + c.taken <= |channel|
  {
    OfferAll(OfferAll(NEW_RELAY, listed[c.low..c.high]), channel[c.joinedAt..c.joinedAt + c.taken])
  }

  predicate ConnInvariant(order: Order, clean: nat, channel: seq<Frame>, listed: seq<Frame>, c: Conn) {
    && (Listening(c) || c.link.Stopped? ==> c.joinedAt + c.taken <= |channel|)
    && (Listening(c) ==> c.inbox == channel[c.joinedAt + c.taken..])
    && match c.link
       case Unsubscribed => c == NEW_CONN
       case Subscribed =>
         c.relay == NEW_RELAY && c.taken == 0 && Min(c.joinedAt, clean) <= |listed| + Slack(order)
       case Replaying(rest) =>
         && c.low <= c.high <= |listed| && Min(c.joinedAt, clean) <= c.high + Slack(order) && c.taken == 0
         && |rest| <= c.high - c.low
         && rest == listed[c.high - |rest|..c.high]
         && c.relay == OfferAll(NEW_RELAY, listed[c.low..c.high - |rest|])
       case Live =>
         && c.low <= c.high <= |listed| && Min(c.joinedAt, clean) <= c.high + Slack(order)
         && c.relay == Relayed(channel, listed, c)
       case Stopped =>
         && c.low <= c.high <= |listed| && Min(c.joinedAt, clean) <= c.high + Slack(order)
         && c.taken > 0 && Stops(channel[c.joinedAt + c.taken - 1])
         && c.relay == Relayed(channel, listed, c)
       case Closed => true
  }

  predicate NetInvariant(s: Net) {
    WorkerInvariant(s) && ConnInvariant(s.order, Clean(s), s.channel, s.listed, s.conn)
  }

  lemma OfferAllSnoc(r: Relay, frames: seq<Frame>, f: Frame)
    ensures OfferAll(r, frames + [f]) == Offer(OfferAll(r, frames), f)
  {
    assert (frames + [f])[..|frames|] == frames;
  }

  lemma PublicationIsHeard(order: Order, clean: nat, channel: seq<Frame>, listed: seq<Frame>, c: Conn, f: Frame)
    requires ConnInvariant(order, clean, channel, listed, c)
    ensures ConnInvariant(order, clean, channel + [f], listed, if Listening(c) then c.(inbox := c.inbox + [f]) else c)
  {
    hide OfferAll;
    if Listening(c) || c.link.Stopped? {
      var (j, n) := (c.joinedAt, c.joinedAt + c.taken);
      assert (channel + [f])[n..] == channel[n..] + [f];
      assert (channel + [f])[j..n] == channel[j..n];
    }
  }

  lemma AppendIsHarmless(order: Order, clean: nat, channel: seq<Frame>, listed: seq<Frame>, c: Conn, f: Frame)
    requires ConnInvariant(order, clean, channel, listed, c)
    ensures ConnInvariant(order, clean, channel, listed + [f], c)
  {
    hide OfferAll;
    if c.link.Replaying? || c.link.Live? || c.link.Stopped? {
      var more := listed + [f];
      assert forall i, j :: 0 <= i <= j <= |listed| ==> more[i..j] == listed[i..j];
    }
  }

  /** What comes after the subscription does not change how many frames the snapshot can miss. */
  lemma CleanMayGrow(order: Order, clean: nat, clean': nat, channel: seq<Frame>, listed: seq<Frame>, c: Conn)
    requires ConnInvariant(order, clean, channel, listed, c)
    requires clean' == clean || |channel| <= clean <= clean'
    ensures ConnInvariant(order, clean', channel, listed, c)
  {
    hide OfferAll;
  }

  lemma ReplayIsKept(order: Order, clean: nat, channel: seq<Frame>, listed: seq<Frame>, c: Conn)
    requires ConnInvariant(order, clean, channel, listed, c) && c.link.Replaying? && c.link.rest != []
    ensures ConnInvariant(order, clean, channel, listed,
                          c.(link := Replaying(c.link.rest[1..]), relay := Offer(c.relay, c.link.rest[0])))
  {
    hide OfferAll, Offer;
    var k := c.high - |c.link.rest|;
    assert c.link.rest[0] == listed[k];
    assert c.link.rest[1..] == listed[k + 1..c.high];
    assert listed[c.low..k] + [listed[k]] == listed[c.low..k + 1];
    OfferAllSnoc(NEW_RELAY, listed[c.low..k], listed[k]);
  }

  lemma DeliverIsKept(order: Order, clean: nat, channel: seq<Frame>, listed: seq<Frame>, c: Conn)
    requires ConnInvariant(order, clean, channel, listed, c) && c.link.Live? && c.inbox != []
    ensures ConnInvariant(order, clean, channel, listed, Follow(c))
  {
    hide OfferAll, Offer;
    var (j, n) := (c.joinedAt, c.joinedAt + c.taken);
    assert c.inbox[0] == channel[n];
    assert c.inbox[1..] == channel[n + 1..];
    assert channel[j..n] + [channel[n]] == channel[j..n + 1];
    OfferAllSnoc(OfferAll(NEW_RELAY, listed[c.low..c.high]), channel[j..n], channel[n]);
  }

  lemma {:induction false} ReachingIsShort(frames: seq<Frame>, faults: seq<Fault>, n: nat, sent: bool)
    requires n <= |frames| && n <= |faults|
    ensures |Reaching(frames, faults, n, sent)| <= n
  {
    if n > 0 {
      ReachingIsShort(frames, faults, n - 1, sent);
    }
  }

  /** At any time at most one frame before the first fault is published and not appended. */
  lemma NearlyEqual(s: Net)
    requires WorkerInvariant(s)
    ensures Min(|s.channel|, Clean(s)) <= |s.listed| + Slack(s.order) && |s.channel| <= |s.formatted|
  {
    hide InNumberOrder, ListInvariant;
    ReachingIsShort(s.formatted, s.faults, Announced(s), true);
    ReachingWell(s.formatted, s.faults, Min(Clean(s), Stowed(s)), Stowed(s), false);
  }

  lemma SubscribeIsKept(s: Net)
    requires NetInvariant(s) && s.conn.link == Unsubscribed
    ensures NetInvariant(Next(s, Subscribe))
  {
    hide InNumberOrder, ListInvariant, Reaching, AllWell;
    NearlyEqual(s);
    assert s.channel[|s.channel|..] == [];
    WorkerIsKept(s, Subscribe);
  }

  lemma SnapshotIsKept(s: Net)
    requires NetInvariant(s) && s.conn.link == Subscribed
    ensures NetInvariant(Next(s, Snapshot))
  {
    hide InNumberOrder, Reaching, AllWell;
    assert LRange(s.buffer, 0, -1) == s.buffer by {
      CatchUpFromIndex(s.buffer, 0);
      assert s.buffer[0..] == s.buffer;
    }
    assert s.listed[s.dropped..s.dropped] == [];
    assert s.listed[s.dropped..] == s.listed[s.dropped..|s.listed|];
    WorkerIsKept(s, Snapshot);
  }

  lemma GoLiveIsKept(s: Net)
    requires NetInvariant(s) && s.conn.link == Replaying([])
    ensures NetInvariant(Next(s, GoLive))
  {
    hide InNumberOrder, Reaching, AllWell;
    WorkerIsKept(s, GoLive);
    assert s.conn.link.rest == [];
    assert s.channel[s.conn.joinedAt..s.conn.joinedAt] == [];
  }

  lemma ConnStepIsKept(s: Net, l: Label)
    requires NetInvariant(s) && Enabled(s, l)
    requires l.Connect? || l.Receive? || l.Disconnect? || l.Refresh? || l.Tick?
    ensures NetInvariant(Next(s, l))
  {
    hide InNumberOrder, OfferAll, ListInvariant, OnMessage, Reaching, AllWell;
    WorkerIsKept(s, l);
  }

  /** Without a fault so far the number of frames without one grows; afterwards it is fixed. */
  lemma CleanAfter(faults: seq<Fault>, x: Fault)
    ensures var (k, k') := (Handled(faults, |faults|), Handled(faults + [x], |faults| + 1));
            k' == k || (k == |faults| && k' == k + 1)
  {
    hide Handled;
    var (k, k') := (Handled(faults, |faults|), Handled(faults + [x], |faults| + 1));
    assert k < |faults| ==> (faults + [x])[k] == faults[k];
    assert k' < |faults| ==> (faults + [x])[k'] == faults[k'];
  }

  lemma FirstCallIsKept(s: Net, chunk: Chunk, fault: Fault)
    requires NetInvariant(s) && Enabled(s, Emit(chunk, fault))
    ensures NetInvariant(Next(s, Emit(chunk, fault)))
  {
    hide InNumberOrder, ListInvariant, ConnInvariant, Reaching, AllWell, Handled;
    WorkerIsKept(s, Emit(chunk, fault));
    NearlyEqual(s);
    CleanAfter(s.faults, fault);
    var f := Frame(|s.formatted|, chunk.event, chunk.data);
    var clean := Handled(s.faults + [fault], |s.faults| + 1);
    CleanMayGrow(s.order, Clean(s), clean, s.channel, s.listed, s.conn);
    if s.order == PublishFirst {
      PublicationIsHeard(s.order, clean, s.channel, s.listed, s.conn, f);
    } else {
      AppendIsHarmless(s.order, clean, s.channel, s.listed, s.conn, f);
    }
  }

  lemma SecondCallIsKept(s: Net)
    requires NetInvariant(s) && s.worker.Half?
    ensures NetInvariant(Next(s, Second))
  {
    hide InNumberOrder, ListInvariant, ConnInvariant, Reaching, AllWell, Handled;
    WorkerIsKept(s, Second);
    if s.order == PublishFirst {
      AppendIsHarmless(s.order, Clean(s), s.channel, s.listed, s.conn, s.worker.frame);
    } else {
      PublicationIsHeard(s.order, Clean(s), s.channel, s.listed, s.conn, s.worker.frame);
    }
  }

  lemma StepIsKept(s: Net, l: Label)
    requires NetInvariant(s) && Enabled(s, l)
    ensures NetInvariant(Next(s, l)) && Next(s, l).order == s.order && Next(s, l).faulty == s.faulty
  {
    hide InNumberOrder, ListInvariant, ConnInvariant, Reaching, AllWell, Handled, OnMessage, LRange;
    match l
    case Emit(chunk, fault) => FirstCallIsKept(s, chunk, fault);
    case Second => SecondCallIsKept(s);
    case Subscribe => SubscribeIsKept(s);
    case Snapshot => SnapshotIsKept(s);
    case ReplayOne =>
      WorkerIsKept(s, l);
      ReplayIsKept(s.order, Clean(s), s.channel, s.listed, s.conn);
    case Deliver =>
      WorkerIsKept(s, l);
      DeliverIsKept(s.order, Clean(s), s.channel, s.listed, s.conn);
    case GoLive => GoLiveIsKept(s);
    case _ => ConnStepIsKept(s, l);
  }

  lemma {:induction false} InvariantHolds(s: Net, labels: seq<Label>)
    requires NetInvariant(s) && Runs(s, labels)
    ensures var s' := After(s, labels); NetInvariant(s') && s'.order == s.order && s'.faulty == s.faulty
    decreases labels
  {
    hide NetInvariant, Enabled, Next;
    if labels != [] {
      StepIsKept(s, labels[0]);
      InvariantHolds(Next(s, labels[0]), labels[1..]);
    }
  }

  lemma InitIsValid(order: Order, ttl: real, faulty: bool := false)
    ensures NetInvariant(Init(order, ttl, faulty))
  {
  }

  lemma InvariantHoldsFromStart(order: Order, ttl: real, labels: seq<Label>, faulty: bool := false)
    requires Runs(Init(order, ttl, faulty), labels)
    ensures var s := After(Init(order, ttl, faulty), labels); NetInvariant(s) && s.order == order && s.faulty == faulty
  {
    hide After, Runs, NetInvariant;
    InitIsValid(order, ttl, faulty);
    InvariantHolds(Init(order, ttl, faulty), labels);
  }

  // ---------- What a connection delivers ----------

  /** The connection has replayed its snapshot and follows the channel, or was stopped by it. */
  predicate Following(c: Conn) {
    c.link.Live? || c.link.Stopped?
  }

  /** Frames published before the subscription or taken from the channel since. */
  function Processed(c: Conn): nat {
    c.joinedAt + c.taken
  }

  /** The snapshot missed a frame published before the subscription. */
  predicate Missed(c: Conn) {
    c.joinedAt > c.high
  }

  /** If nothing fails, channel and list are the frames in order, up to the one in flight. */
  lemma NothingFails(s: Net)
    requires WorkerInvariant(s) && !s.faulty
    ensures s.channel == s.formatted[..Announced(s)] && s.listed == s.formatted[..Stowed(s)]
    ensures Clean(s) == |s.formatted|
  {
    hide InNumberOrder, ListInvariant, Reaching, Handled;
    ReachingWell(s.formatted, s.faults, Announced(s), Announced(s), true);
    ReachingWell(s.formatted, s.faults, Stowed(s), Stowed(s), false);
  }

  /** The first live frame the filter lets through, for a snapshot of frames `low` to `high`. */
  function FirstLive(low: nat, high: nat, joinedAt: nat): nat {
    if low < high then Max(joinedAt, high) else joinedAt
  }

  /** What has been sent once the snapshot and the channel up to frame `n` are through the filter. */
  function SentUpTo(frames: seq<Frame>, low: nat, high: nat, joinedAt: nat, n: nat): Relay
    requires low <= high <= |frames| && n <= |frames|
  {
    var m := FirstLive(low, high, joinedAt);
    if n > m then Relay(n - 1, frames[low..high] + frames[m..n])
    else Relay(if low < high then high - 1 else -1, frames[low..high])
  }

  lemma OfferNothing(r: Relay)
    ensures OfferAll(r, []) == r
  {
  }

  /** A frame above everything sent so far is let through. */
  lemma OfferHigher(r: Relay, frames: seq<Frame>, n: nat)
    requires InNumberOrder(frames) && n < |frames| && r.lastSeq < n
    ensures Offer(r, frames[n]) == Relay(n, r.sent + [frames[n]])
  {
  }

  lemma SliceGrows(frames: seq<Frame>, low: nat, k: nat)
    requires low <= k < |frames|
    ensures frames[low..k] + [frames[k]] == frames[low..k + 1]
  {
  }

  lemma {:induction false} ReplaySendsAll(frames: seq<Frame>, low: nat, k: nat)
    requires low <= k <= |frames| && InNumberOrder(frames)
    ensures OfferAll(NEW_RELAY, frames[low..k]) == Relay(if low < k then k - 1 else -1, frames[low..k])
    decreases k
  {
    hide InNumberOrder, OfferAll, Offer;
    if low == k {
      assert frames[low..k] == [];
      OfferNothing(NEW_RELAY);
    } else {
      ReplaySendsAll(frames, low, k - 1);
      SliceGrows(frames, low, k - 1);
      OfferAllSnoc(NEW_RELAY, frames[low..k - 1], frames[k - 1]);
      OfferHigher(OfferAll(NEW_RELAY, frames[low..k - 1]), frames, k - 1);
    }
  }

  /** The next channel frame extends what has been sent, or is withheld because the snapshot had it. */
  lemma OfferExtends(frames: seq<Frame>, low: nat, high: nat, joinedAt: nat, n: nat)
    requires low <= high <= |frames| && joinedAt <= n < |frames| && InNumberOrder(frames)
    ensures Offer(SentUpTo(frames, low, high, joinedAt, n), frames[n]) == SentUpTo(frames, low, high, joinedAt, n + 1)
  {
    var m := FirstLive(low, high, joinedAt);
    if n >= m {
      assert frames[m..n] + [frames[n]] == frames[m..n + 1];
      if n == m {
        assert frames[low..high] + [frames[n]] == frames[low..high] + frames[m..n + 1];
      } else {
        assert frames[low..high] + frames[m..n] + [frames[n]] == frames[low..high] + frames[m..n + 1];
      }
    }
  }

  lemma {:induction false} RelaySendsUpTo(frames: seq<Frame>, low: nat, high: nat, joinedAt: nat, n: nat)
    requires low <= high <= |frames| && joinedAt <= n <= |frames| && InNumberOrder(frames)
    ensures OfferAll(OfferAll(NEW_RELAY, frames[low..high]), frames[joinedAt..n])
            == SentUpTo(frames, low, high, joinedAt, n)
    decreases n
  {
    hide InNumberOrder, Offer, OfferAll, SentUpTo;
    if n == joinedAt {
      ReplaySendsAll(frames, low, high);
      assert frames[joinedAt..n] == [];
      OfferNothing(OfferAll(NEW_RELAY, frames[low..high]));
      NothingLive(frames, low, high, joinedAt);
    } else {
      RelaySendsUpTo(frames, low, high, joinedAt, n - 1);
      OfferExtends(frames, low, high, joinedAt, n - 1);
      SliceGrows(frames, joinedAt, n - 1);
      OfferAllSnoc(OfferAll(NEW_RELAY, frames[low..high]), frames[joinedAt..n - 1], frames[n - 1]);
    }
  }

  lemma NothingLive(frames: seq<Frame>, low: nat, high: nat, joinedAt: nat)
    requires low <= high <= |frames| && joinedAt <= |frames|
    ensures SentUpTo(frames, low, high, joinedAt, joinedAt)
            == Relay(if low < high then high - 1 else -1, frames[low..high])
  {
  }

  lemma SliceOfPrefix(frames: seq<Frame>, m: nat, i: nat, j: nat)
    requires i <= j <= m <= |frames|
    ensures frames[..m][i..j] == frames[i..j]
  {
  }

  /** The relay's state, told from the history of frames. */
  lemma FaultFreeRelay(s: Net)
    requires NetInvariant(s) && !s.faulty && Following(s.conn)
    ensures var (c, n) := (s.conn, Processed(s.conn));
            && n <= |s.channel| <= |s.formatted| && c.low <= c.high <= |s.formatted|
            && c.joinedAt <= c.high + Slack(s.order)
            && c.relay == SentUpTo(s.formatted, c.low, c.high, c.joinedAt, n)
  {
    hide InNumberOrder, OfferAll, SentUpTo, ListInvariant, Reaching, AllWell, Handled;
    NothingFails(s);
    var (c, n) := (s.conn, Processed(s.conn));
    SliceOfPrefix(s.formatted, Announced(s), c.joinedAt, n);
    SliceOfPrefix(s.formatted, Stowed(s), c.low, c.high);
    RelaySendsUpTo(s.formatted, c.low, c.high, c.joinedAt, n);
  }

  /**
    For every interleaving and any clock: a connection has sent every frame from the start of its
    snapshot to the last one it has processed, in order and once, except at most the one frame with
    number `high`, which only publish-then-append can lose. When the list had expired, it has sent
    what was published since the subscription.
   */
  lemma AtMostOneFrameIsMissing(order: Order, ttl: real, labels: seq<Label>)
    requires Runs(Init(order, ttl), labels) && Following(After(Init(order, ttl), labels).conn)
    ensures var s := After(Init(order, ttl), labels);
            var (c, n) := (s.conn, Processed(s.conn));
            && n <= |s.channel| <= |s.formatted|
            && (c.link.Live? && c.inbox == [] ==> n == |s.channel|)
            && c.low <= c.high <= |s.formatted|
            && (Missed(c) ==> order == PublishFirst && c.joinedAt == c.high + 1)
            && (c.low < c.high || c.low == 0 ==>
                  c.relay.sent == if Missed(c) then s.formatted[c.low..c.high] + s.formatted[c.high + 1..n]
                                  else s.formatted[c.low..Max(c.high, n)])
            && (c.low == c.high ==> c.relay.sent == s.formatted[c.joinedAt..n])
  {
    hide After, Runs, InNumberOrder, WorkerInvariant, OfferAll;
    InvariantHoldsFromStart(order, ttl, labels);
    var s := After(Init(order, ttl), labels);
    FaultFreeRelay(s);
    var (c, n) := (s.conn, Processed(s.conn));
    var m := FirstLive(c.low, c.high, c.joinedAt);
    if n > m && m == c.high && c.low < c.high {
      assert s.formatted[c.low..m] + s.formatted[m..n] == s.formatted[c.low..n];
    } else if c.low == c.high {
      assert s.formatted[c.low..c.high] == [];
      assert n > m ==> [] + s.formatted[m..n] == s.formatted[m..n];
    } else if n == m && Missed(c) {
      assert s.formatted[c.low..c.high] + s.formatted[n..n] == s.formatted[c.low..c.high];
    }
  }

  /** Had the worker appended before publishing, no frame could be missed. */
  lemma AppendingFirstIsGapless(ttl: real, labels: seq<Label>)
    requires Runs(Init(AppendFirst, ttl), labels)
    requires var c := After(Init(AppendFirst, ttl), labels).conn; Following(c) && (c.low < c.high || c.low == 0)
    ensures var s := After(Init(AppendFirst, ttl), labels);
            s.conn.low <= s.conn.high <= |s.formatted| && Processed(s.conn) <= |s.formatted|
            && s.conn.relay.sent == s.formatted[s.conn.low..Max(s.conn.high, Processed(s.conn))]
  {
    hide After, Runs;
    AtMostOneFrameIsMissing(AppendFirst, ttl, labels);
  }

  predicate HoldsFrame(s: Net) {
    s.worker.Half? && s.conn.inbox == []
  }

  /**
    A snapshot misses a frame exactly when the worker is between its two calls and has published nothing
    since the subscription.
   */
  lemma SnapshotMissesIff(order: Order, ttl: real, labels: seq<Label>)
    requires Runs(Init(order, ttl), labels) && After(Init(order, ttl), labels).conn.link == Subscribed
    ensures var s := After(Init(order, ttl), labels);
            Missed(Next(s, Snapshot).conn) <==> order == PublishFirst && HoldsFrame(s)
  {
    hide After, Runs, InNumberOrder, LRange, ListInvariant, Reaching;
    InvariantHoldsFromStart(order, ttl, labels);
    NothingFails(After(Init(order, ttl), labels));
  }

  /** No step of `labels` belongs to the connection. */
  predicate Uninvolved(labels: seq<Label>) {
    forall l :: l in labels ==> l.Emit? || l.Second? || l.Refresh? || l.Tick? || l.Receive?
  }

  lemma {:induction false} HeldIffNotAppended(s: Net, during: seq<Label>)
    requires s.order == PublishFirst && s.conn.link == Subscribed
    requires Runs(s, during) && Uninvolved(during)
    ensures var s' := After(s, during);
            && s'.conn.link == Subscribed
            && (HoldsFrame(s') <==> HoldsFrame(s) && Second !in during)
    decreases during
  {
    hide OnMessage;
    if during != [] {
      var (l, rest) := (during[0], during[1..]);
      assert during == [l] + rest;
      HeldIffNotAppended(Next(s, l), rest);
    }
  }

  /**
    The exact race: a connection misses a frame iff, when it subscribes, the worker has published that
    frame and not appended it, and does not append it before the list is read.
   */
  lemma MissedIffHeldThroughout(ttl: real, before: seq<Label>, during: seq<Label>)
    requires Runs(Init(PublishFirst, ttl), before)
    requires var s := After(Init(PublishFirst, ttl), before);
             s.conn.link == Unsubscribed && Runs(Next(s, Subscribe), during)
    requires Uninvolved(during)
    ensures var s := After(Init(PublishFirst, ttl), before);
            var s' := After(Next(s, Subscribe), during);
            && s'.conn.link == Subscribed
            && (Missed(Next(s', Snapshot).conn) <==> s.worker.Half? && Second !in during)
  {
    hide After, Runs, InNumberOrder, LRange;
    InvariantHoldsFromStart(PublishFirst, ttl, before);
    var s := After(Init(PublishFirst, ttl), before);
    assert s.conn.inbox == [];
    StepIsKept(s, Subscribe);
    InvariantHolds(Next(s, Subscribe), during);
    HeldIffNotAppended(Next(s, Subscribe), during);
    NothingFails(s);
    NothingFails(After(Next(s, Subscribe), during));
  }

  // ---------- The race when Redis fails ----------

  /** The snapshot missed a frame that was published before the subscription and before the first fault. */
  predicate Lost(s: Net) {
    s.conn.high < Min(s.conn.joinedAt, Clean(s))
  }

  /** Nothing has failed yet, and the newest frame was published before the subscription and is not appended. */
  predicate HoldsCleanFrame(s: Net) {
    s.worker.Half? && Clean(s) == |s.formatted| == s.conn.joinedAt
  }

  lemma LostIffHeld(s: Net)
    requires NetInvariant(s) && s.order == PublishFirst && s.conn.link == Subscribed
    ensures Lost(Next(s, Snapshot)) <==> HoldsCleanFrame(s)
  {
    hide InNumberOrder, ListInvariant, Reaching, Handled, LRange, AllWell;
    NearlyEqual(s);
    ReachingIsShort(s.formatted, s.faults, Stowed(s), false);
    ReachingWell(s.formatted, s.faults, Min(Clean(s), Stowed(s)), Stowed(s), false);
  }

  lemma CleanHeldStep(s: Net, l: Label)
    requires s.order == PublishFirst && s.conn.link == Subscribed && s.conn.joinedAt <= |s.formatted| == |s.faults|
    requires Enabled(s, l) && Uninvolved([l])
    ensures var s' := Next(s, l);
            && s'.order == s.order && s'.conn.link == Subscribed && s'.conn.joinedAt == s.conn.joinedAt
            && s'.conn.joinedAt <= |s'.formatted| == |s'.faults|
            && (HoldsCleanFrame(s') <==> HoldsCleanFrame(s) && l != Second)
  {
    hide OnMessage, Handled;
    assert l in [l];
  }

  lemma {:induction false} CleanHeldIffNotAppended(s: Net, during: seq<Label>)
    requires s.order == PublishFirst && s.conn.link == Subscribed && s.conn.joinedAt <= |s.formatted| == |s.faults|
    requires Runs(s, during) && Uninvolved(during)
    ensures var s' := After(s, during);
            s'.conn.link == Subscribed && (HoldsCleanFrame(s') <==> HoldsCleanFrame(s) && Second !in during)
    decreases during
  {
    hide Next, Enabled, HoldsCleanFrame;
    if during != [] {
      var (l, rest) := (during[0], during[1..]);
      assert during == [l] + rest;
      CleanHeldStep(s, l);
      CleanHeldIffNotAppended(Next(s, l), rest);
    }
  }

  /**
    The exact race for a Redis that may fail: a frame is lost iff, when the connection subscribes, nothing
    has failed yet, the worker has published that frame and not appended it, and it does not make the
    second call before the list is read.
   */
  lemma LostIffHeldThroughout(ttl: real, before: seq<Label>, during: seq<Label>)
    requires Runs(Init(PublishFirst, ttl, true), before)
    requires var s := After(Init(PublishFirst, ttl, true), before);
             s.conn.link == Unsubscribed && Runs(Next(s, Subscribe), during)
    requires Uninvolved(during)
    ensures var s := After(Init(PublishFirst, ttl, true), before);
            var s' := After(Next(s, Subscribe), during);
            && s'.conn.link == Subscribed
            && (Lost(Next(s', Snapshot)) <==> s.worker.Half? && Clean(s) == |s.formatted| && Second !in during)
  {
    hide After, Runs, NetInvariant, Handled, Lost;
    InvariantHoldsFromStart(PublishFirst, ttl, before, true);
    var s := After(Init(PublishFirst, ttl, true), before);
    StepIsKept(s, Subscribe);
    InvariantHolds(Next(s, Subscribe), during);
    AllPublished(s);
    CleanHeldIffNotAppended(Next(s, Subscribe), during);
    LostIffHeld(After(Next(s, Subscribe), during));
  }

  /** Without a fault everything numbered is published. */
  lemma AllPublished(s: Net)
    requires NetInvariant(s) && s.order == PublishFirst
    ensures |s.channel| <= |s.formatted| == |s.faults|
    ensures Clean(s) == |s.formatted| ==> |s.channel| == |s.formatted|
  {
    hide InNumberOrder, ListInvariant, Reaching, Handled, AllWell, ConnInvariant;
    NearlyEqual(s);
    ReachingWell(s.formatted, s.faults, Clean(s), Announced(s), true);
  }

  // ---------- When a connection stops ----------

  /** Of the channel frames a connection has consumed, none or just the last one is a final or an error frame. */
  predicate StopInvariant(s: Net) {
    var (c, channel) := (s.conn, s.channel);
    && (c.link.Live? || c.link.Stopped? ==> c.joinedAt + c.taken <= |channel|)
    && (c.link.Live? ==>
          forall i :: c.joinedAt <= i < c.joinedAt + c.taken ==> !HasEvent(channel[i], {Complete, Error}))
    && (c.link.Stopped? ==>
          && c.taken > 0 && HasEvent(channel[c.joinedAt + c.taken - 1], {Complete, Error})
          && forall i :: c.joinedAt <= i < c.joinedAt + c.taken - 1 ==> !HasEvent(channel[i], {Complete, Error}))
  }

  lemma FollowKeepsStop(s: Net)
    requires NetInvariant(s) && StopInvariant(s) && s.conn.link.Live? && s.conn.inbox != []
    ensures StopInvariant(Next(s, Deliver))
  {
    hide WorkerInvariant, Relayed, Offer;
    var n := s.conn.joinedAt + s.conn.taken;
    assert s.conn.inbox[0] == s.channel[n];
  }

  lemma StopIsKept(s: Net, l: Label)
    requires NetInvariant(s) && StopInvariant(s) && Enabled(s, l)
    ensures StopInvariant(Next(s, l))
  {
    hide WorkerInvariant, Relayed, Offer, OnMessage, LRange, HasEvent, Follow, OfferAll;
    if l.Deliver? {
      FollowKeepsStop(s);
    } else if l.Emit? || l.Second? {
      assert |s.channel| <= |Next(s, l).channel| && Next(s, l).channel[..|s.channel|] == s.channel;
      assert forall i :: 0 <= i < |s.channel| ==> Next(s, l).channel[i] == s.channel[i];
    }
  }

  lemma {:induction false} StopHolds(s: Net, labels: seq<Label>)
    requires NetInvariant(s) && StopInvariant(s) && Runs(s, labels)
    ensures StopInvariant(After(s, labels))
    decreases labels
  {
    hide NetInvariant, StopInvariant, Enabled, Next;
    if labels != [] {
      StepIsKept(s, labels[0]);
      StopIsKept(s, labels[0]);
      StopHolds(Next(s, labels[0]), labels[1..]);
    }
  }

  /**
    In every run: a live connection has consumed no final and no error frame from the channel, and a
    stopped one exactly one, as the last. So a connection that subscribed before such a frame was
    published, that its client does not close and that has consumed its inbox is stopped, there or earlier.
   */
  lemma StoppedByFinalFrame(order: Order, ttl: real, faulty: bool, labels: seq<Label>)
    requires Runs(Init(order, ttl, faulty), labels)
    ensures var s := After(Init(order, ttl, faulty), labels);
            && StopInvariant(s)
            && (Following(s.conn) && (s.conn.link.Live? ==> s.conn.inbox == []) ==>
                  forall i :: s.conn.joinedAt <= i < |s.channel| && HasEvent(s.channel[i], {Complete, Error}) ==>
                    s.conn.link.Stopped? && Processed(s.conn) <= i + 1)
  {
    hide After, Runs, WorkerInvariant, Relayed, HasEvent;
    InitIsValid(order, ttl, faulty);
    StopHolds(Init(order, ttl, faulty), labels);
    InvariantHoldsFromStart(order, ttl, labels, faulty);
  }

  // ---------- Expiry ----------

  /** The worker has been silent for the time to live when this tick ends, with frames in the list. */
  predicate Expires(s: Net, l: Label) {
    l.Tick? && s.buffer != [] && s.deadline.Some? && s.now + l.seconds - s.refreshedAt >= s.ttl
  }

  predicate NeverExpires(s: Net, labels: seq<Label>)
    requires Runs(s, labels)
    decreases labels
  {
    labels == [] || (!Expires(s, labels[0]) && NeverExpires(Next(s, labels[0]), labels[1..]))
  }

  lemma DropsOnlyByExpiry(s: Net, l: Label)
    requires NetInvariant(s) && Enabled(s, l)
    ensures s.dropped <= Next(s, l).dropped
    ensures Next(s, l).dropped == s.dropped <==> !Expires(s, l)
  {
    hide InNumberOrder, ConnInvariant, OnMessage, Offer, LRange;
  }

  lemma {:induction false} DroppedGrows(s: Net, labels: seq<Label>)
    requires NetInvariant(s) && Runs(s, labels)
    ensures s.dropped <= After(s, labels).dropped
    ensures After(s, labels).dropped == s.dropped <==> NeverExpires(s, labels)
    decreases labels
  {
    hide NetInvariant, Next, Enabled, Expires;
    if labels != [] {
      StepIsKept(s, labels[0]);
      DropsOnlyByExpiry(s, labels[0]);
      DroppedGrows(Next(s, labels[0]), labels[1..]);
    }
  }

  /**
    Under any clock: the list holds the appended frames from some number on, contiguous and up to the
    newest, and it holds all of them exactly when the worker never was silent for the time to live.
    Catching up from an index returns the frames from that index of the list on.
   */
  lemma ListIsNewestRun(order: Order, ttl: real, labels: seq<Label>, start: nat)
    requires Runs(Init(order, ttl), labels)
    ensures var s := After(Init(order, ttl), labels);
            && s.dropped <= |s.listed| <= |s.formatted|
            && |s.buffer| == |s.listed| - s.dropped
            && (forall i :: 0 <= i < |s.buffer| ==>
                  && s.buffer[i].Frame? && s.buffer[i].sequence == s.dropped + i
                  && s.buffer[i] == s.formatted[s.dropped + i])
            && (s.dropped == 0 <==> NeverExpires(Init(order, ttl), labels))
            && LRange(s.buffer, start, -1) == (if start <= |s.buffer| then s.buffer[start..] else [])
  {
    hide After, Runs, LRange, NetInvariant, NeverExpires;
    InvariantHoldsFromStart(order, ttl, labels);
    InitIsValid(order, ttl);
    DroppedGrows(Init(order, ttl), labels);
    ListHolds(After(Init(order, ttl), labels));
    CatchUpFromIndex(After(Init(order, ttl), labels).buffer, start);
  }

  lemma ListHolds(s: Net)
    requires NetInvariant(s) && !s.faulty
    ensures s.dropped <= |s.listed| <= |s.formatted| && |s.buffer| == |s.listed| - s.dropped
    ensures forall i :: 0 <= i < |s.buffer| ==>
              && s.buffer[i].Frame? && s.buffer[i].sequence == s.dropped + i
              && s.buffer[i] == s.formatted[s.dropped + i]
  {
    hide ConnInvariant, Reaching, AllWell, InNumberOrder, Handled;
    NothingFails(s);
    RunOfNumbered(s.formatted, Stowed(s), s.dropped);
  }

  lemma RunOfNumbered(frames: seq<Frame>, m: nat, d: nat)
    requires InNumberOrder(frames) && d <= m <= |frames|
    ensures var run := frames[..m][d..];
            && |run| == m - d
            && forall i :: 0 <= i < |run| ==>
                 run[i].Frame? && run[i].sequence == d + i && run[i] == frames[d + i]
  {
  }

  // ---------- The race happens ----------

  /** The worker has published one frame; a connection subscribes and reads the still empty list. */
  function RaceBegins(chunk: Chunk): seq<Label> {
    [Emit(chunk)] + ([Subscribe] + ([Snapshot] + RaceEnds()))
  }

  /** The worker completes its publication and the connection goes live. */
  function RaceEnds(): seq<Label> {
    [Second] + ([Refresh] + ([GoLive] + []))
  }

  /** The state between the two halves. */
  function InRace(chunk: Chunk, ttl: real): Net {
    var f := Frame(0, chunk.event, chunk.data);
    Net(PublishFirst, ttl, false, Half(f, NoFault), [f], [NoFault], [f], [], 0, [], None, 0.0, 0.0,
        Conn(Replaying([]), [], NEW_RELAY, 1, 0, 0, 0), NEW_CLIENT, 0)
  }

  lemma RaceFinishes(chunk: Chunk, ttl: real)
    ensures Runs(InRace(chunk, ttl), RaceEnds())
    ensures var s := After(InRace(chunk, ttl), RaceEnds());
            && s.worker == Ready && s.channel == s.listed == s.formatted && |s.formatted| == 1
            && s.conn.link == Live && s.conn.inbox == [] && s.conn.relay.sent == [] && Missed(s.conn)
  {
    hide Runs, After;
    var s3 := InRace(chunk, ttl);
    var s4 := Next(s3, Second);
    var s5 := Next(s4, Refresh);
    NoSteps(Next(s5, GoLive));
    LastStep(s5, GoLive, []);
    LastStep(s4, Refresh, [GoLive] + []);
    LastStep(s3, Second, [Refresh] + ([GoLive] + []));
  }

  /**
    The frame is then in the list and was on the channel, the worker is idle, and the live connection will
    never get it.
   */
  lemma RaceLosesFrame(chunk: Chunk, ttl: real)
    ensures Runs(Init(PublishFirst, ttl), RaceBegins(chunk))
    ensures var s := After(Init(PublishFirst, ttl), RaceBegins(chunk));
            && s.worker == Ready && s.channel == s.listed == s.formatted && |s.formatted| == 1
            && s.conn.link == Live && s.conn.inbox == [] && s.conn.relay.sent == [] && Missed(s.conn)
  {
    hide Runs, After, RaceEnds;
    var s0 := Init(PublishFirst, ttl);
    var s1 := Next(s0, Emit(chunk));
    var s2 := Next(s1, Subscribe);
    SnapshotOfNothing(s2);
    assert Next(s2, Snapshot) == InRace(chunk, ttl);
    RaceFinishes(chunk, ttl);
    LastStep(s2, Snapshot, RaceEnds());
    LastStep(s1, Subscribe, [Snapshot] + RaceEnds());
    LastStep(s0, Emit(chunk), [Subscribe] + ([Snapshot] + RaceEnds()));
  }

  lemma NoSteps(s: Net)
    ensures Runs(s, []) && After(s, []) == s
  {
  }

  lemma SnapshotOfNothing(s: Net)
    requires s.conn.link == Subscribed && s.buffer == []
    ensures Next(s, Snapshot)
            == s.(conn := s.conn.(link := Replaying([]), low := s.dropped, high := |s.listed|))
  {
  }

  lemma LastStep(s: Net, l: Label, rest: seq<Label>)
    requires Enabled(s, l) && Runs(Next(s, l), rest)
    ensures Runs(s, [l] + rest) && After(s, [l] + rest) == After(Next(s, l), rest)
  {
    assert ([l] + rest)[1..] == rest;
  }

  // ---------- The worker's code performs these steps ----------

  /** The Redis keys as the worker's code sees them. */
  function StoreOf(s: Net): StoreState {
    StoreState(s.now, s.channel, s.buffer, s.deadline, s.listed)
  }

  /** The steps of one publication, after the time that passes before it. */
  function Publication(chunk: Chunk, fault: Fault, wait: real): seq<Label> {
    [Tick(wait)]
    + ([Emit(chunk, fault)]
       + (if fault.PublishRaises? then [] else [Second] + (if fault.PushRaises? then [] else [Refresh] + [])))
  }

  /** The state after one publication. */
  predicate HasPublished(s: Net, s': Net, f: Frame, fault: Fault, wait: real) {
    && s'.worker == Ready && (s'.order, s'.faulty, s'.ttl) == (s.order, s.faulty, s.ttl)
    && s'.formatted == s.formatted + [f] && s'.faults == s.faults + [fault]
    && StoreOf(s') == Published(Elapsed(StoreOf(s), wait), f, fault)
  }

  lemma PublicationEffect(s: Net, chunk: Chunk, fault: Fault, wait: real)
    requires s.order == PublishFirst && s.faulty && s.worker == Ready && s.ttl == BUFFER_TTL_SECONDS && wait >= 0.0
    ensures var f := Frame(|s.formatted|, chunk.event, chunk.data);
            var s2 := Next(Next(s, Tick(wait)), Emit(chunk, fault));
            if fault.PublishRaises? then HasPublished(s, s2, f, fault, wait)
            else
              && Enabled(s2, Second)
              && var s3 := Next(s2, Second);
                 if fault.PushRaises? then HasPublished(s, s3, f, fault, wait)
                 else Enabled(s3, Refresh) && HasPublished(s, Next(s3, Refresh), f, fault, wait)
  {
  }

  lemma PublicationRuns(s: Net, chunk: Chunk, fault: Fault, wait: real)
    requires s.order == PublishFirst && s.faulty && s.worker == Ready && s.ttl == BUFFER_TTL_SECONDS && wait >= 0.0
    ensures Runs(s, Publication(chunk, fault, wait))
    ensures HasPublished(s, After(s, Publication(chunk, fault, wait)),
                         Frame(|s.formatted|, chunk.event, chunk.data), fault, wait)
  {
    PublicationEffect(s, chunk, fault, wait);
    hide Runs, After, Next, HasPublished;
    var s1 := Next(s, Tick(wait));
    var s2 := Next(s1, Emit(chunk, fault));
    if fault.PublishRaises? {
      NoSteps(s2);
      LastStep(s1, Emit(chunk, fault), []);
      LastStep(s, Tick(wait), [Emit(chunk, fault)] + []);
    } else {
      var s3 := Next(s2, Second);
      var rest := if fault.PushRaises? then [] else [Refresh] + [];
      if fault.PushRaises? {
        NoSteps(s3);
      } else {
        NoSteps(Next(s3, Refresh));
        LastStep(s3, Refresh, []);
      }
      LastStep(s2, Second, rest);
      LastStep(s1, Emit(chunk, fault), [Second] + rest);
      LastStep(s, Tick(wait), [Emit(chunk, fault)] + ([Second] + rest));
    }
  }

  lemma {:induction false} RunsSplit(s: Net, a: seq<Label>, b: seq<Label>)
    requires Runs(s, a) && Runs(After(s, a), b)
    ensures Runs(s, a + b) && After(s, a + b) == After(After(s, a), b)
    decreases a
  {
    hide Enabled, Next;
    if a == [] {
      assert a + b == b;
    } else {
      assert (a + b)[1..] == a[1..] + b;
      RunsSplit(Next(s, a[0]), a[1..], b);
    }
  }

  /** The state after the first `n` publications. */
  predicate HasPerformed(s: Net, chunks: seq<Chunk>, faults: seq<Fault>, waits: seq<real>, n: nat)
    requires n <= |chunks| && n <= |faults| && n <= |waits|
  {
    var start := Init(PublishFirst, BUFFER_TTL_SECONDS, true);
    && s.worker == Ready && (s.order, s.faulty, s.ttl) == (start.order, start.faulty, start.ttl)
    && s.formatted == Numbered(chunks[..n], 0) && s.faults == faults[..n]
    && StoreOf(s) == Feed(StoreOf(start), Numbered(chunks, 0), faults, waits, n)
  }

  lemma PerformsNext(s: Net, s': Net, chunks: seq<Chunk>, faults: seq<Fault>, waits: seq<real>, n: nat)
    requires n < |chunks| && n < |faults| && n < |waits| && HasPerformed(s, chunks, faults, waits, n)
    requires HasPublished(s, s', Frame(n, chunks[n].event, chunks[n].data), faults[n], waits[n])
    ensures HasPerformed(s', chunks, faults, waits, n + 1)
  {
    hide Published, Elapsed;
    assert Numbered(chunks[..n + 1], 0) == Numbered(chunks[..n], 0) + [Numbered(chunks, 0)[n]];
    assert faults[..n + 1] == faults[..n] + [faults[n]];
  }

  /** Performed step by step, the publications of a task leave Redis as the task's code does. */
  lemma {:induction false} TaskIsARun(chunks: seq<Chunk>, faults: seq<Fault>, waits: seq<real>, n: nat)
    returns (labels: seq<Label>)
    requires n <= |chunks| && n <= |faults| && n <= |waits| && forall i :: 0 <= i < n ==> waits[i] >= 0.0
    ensures var s := Init(PublishFirst, BUFFER_TTL_SECONDS, true);
            Runs(s, labels) && HasPerformed(After(s, labels), chunks, faults, waits, n)
  {
    var s := Init(PublishFirst, BUFFER_TTL_SECONDS, true);
    if n == 0 {
      labels := [];
    } else {
      hide Runs, After, HasPublished;
      var before := TaskIsARun(chunks, faults, waits, n - 1);
      var (chunk, fault, wait) := (chunks[n - 1], faults[n - 1], waits[n - 1]);
      PublicationRuns(After(s, before), chunk, fault, wait);
      RunsSplit(s, before, Publication(chunk, fault, wait));
      labels := before + Publication(chunk, fault, wait);
      PerformsNext(After(s, before), After(s, labels), chunks, faults, waits, n - 1);
    }
  }
}
