/**
  What one connection brings to the browser: which of the worker's frames the relay sends, whatever
  fails and however old the list is, and what standard output they carry.
 */
module Arrival {
  import opened Models
  import opened Streaming
  import opened WebSocketRelay
  import opened ExecutionStreamHook
  import opened Delivery
  import opened DeliveryLaws

  // ---------- What the relay sends is decided frame by frame ----------

  /** The frames sent are in increasing order and the filter remembers the last number. */
  predicate Ascending(r: Relay) {
    && Increasing(r.sent)
    && r.lastSeq == (if r.sent == [] then -1 else r.sent[|r.sent| - 1].sequence)
  }

  lemma OfferAscends(r: Relay, f: Frame)
    requires Ascending(r) && f.Frame? && f.sequence >= 0
    ensures Ascending(Offer(r, f))
    ensures forall g :: g in Offer(r, f).sent <==> g in r.sent || (g == f && f.sequence > r.lastSeq)
  {
  }

  /** Of frames in increasing order the filter lets through those above the last number it has seen. */
  lemma {:induction false} OfferAllAscends(r: Relay, frames: seq<Frame>)
    requires Ascending(r) && Increasing(frames)
    ensures Ascending(OfferAll(r, frames))
    ensures OfferAll(r, frames).lastSeq
            == if frames == [] then r.lastSeq else Max(r.lastSeq, frames[|frames| - 1].sequence)
    ensures forall g :: g in OfferAll(r, frames).sent <==> g in r.sent || (g in frames && g.sequence > r.lastSeq)
  {
    hide Ascending, Offer;
    if frames != [] {
      var (init, f) := (frames[..|frames| - 1], frames[|frames| - 1]);
      OfferAllAscends(r, init);
      OfferAscends(OfferAll(r, init), f);
      OfferLast(OfferAll(r, init), f);
      assert frames == init + [f];
      assert forall g :: g in init ==> g.sequence < f.sequence;
    }
  }

  lemma OfferLast(r: Relay, f: Frame)
    requires f.Frame?
    ensures Offer(r, f).lastSeq == Max(r.lastSeq, f.sequence)
  {
  }

  /** A frame is sent exactly if the snapshot has it, or the channel has it above everything in the snapshot. */
  lemma SentIff(snapshot: seq<Frame>, channel: seq<Frame>)
    requires Increasing(snapshot) && Increasing(channel)
    ensures var r := OfferAll(OfferAll(NEW_RELAY, snapshot), channel);
            && Increasing(r.sent)
            && forall g :: g in r.sent <==>
                 || g in snapshot
                 || (g in channel && (snapshot != [] ==> g.sequence > snapshot[|snapshot| - 1].sequence))
  {
    OfferAllAscends(NEW_RELAY, snapshot);
    OfferAllAscends(OfferAll(NEW_RELAY, snapshot), channel);
  }

  // ---------- Frames kept in order ----------

  /** The frames that are also in `sent`. */
  function Kept(frames: seq<Frame>, sent: seq<Frame>): (r: seq<Frame>)
    ensures forall f :: f in r ==> f in frames
  {
    if frames == [] then []
    else
      var f := frames[|frames| - 1];
      Kept(frames[..|frames| - 1], sent) + (if f in sent then [f] else [])
  }

  lemma {:induction false} KeptByMembership(frames: seq<Frame>, a: seq<Frame>, b: seq<Frame>)
    requires forall f :: f in frames ==> (f in a <==> f in b)
    ensures Kept(frames, a) == Kept(frames, b)
  {
    if frames != [] {
      KeptByMembership(frames[..|frames| - 1], a, b);
    }
  }

  lemma {:induction false} NothingKept(frames: seq<Frame>)
    ensures Kept(frames, []) == []
  {
    if frames != [] {
      NothingKept(frames[..|frames| - 1]);
    }
  }

  /** Frames sent in increasing order are the numbered frames without those not sent. */
  lemma {:induction false} SentIsKept(frames: seq<Frame>, sent: seq<Frame>)
    requires Increasing(frames) && Increasing(sent) && forall f :: f in sent ==> f in frames
    ensures Kept(frames, sent) == sent
    decreases |frames|
  {
    if sent == [] {
      NothingKept(frames);
    } else {
      assert sent[0] in frames;
      var (init, f) := (frames[..|frames| - 1], frames[|frames| - 1]);
      assert frames == init + [f];
      SliceIsSorted(frames, 0, |frames| - 1);
      assert frames[0..|frames| - 1] == init;
      hide Increasing;
      if f in sent {
        LastSent(init, f, sent);
        var fewer := sent[..|sent| - 1];
        assert sent == fewer + [f];
        SentIsKept(init, fewer);
        KeptByMembership(init, sent, fewer);
      } else {
        SentIsKept(init, sent);
      }
    }
  }

  lemma LastSent(init: seq<Frame>, f: Frame, sent: seq<Frame>)
    requires Increasing(init + [f]) && Increasing(sent) && f in sent && forall g :: g in sent ==> g in init + [f]
    ensures sent[|sent| - 1] == f && f !in sent[..|sent| - 1] && Increasing(sent[..|sent| - 1])
    ensures f !in init && forall g :: g in sent[..|sent| - 1] ==> g in init
  {
    hide Increasing;
    AllBelow(init, f);
    LargestIsLast(sent, f);
    assert forall g :: g in sent[..|sent| - 1] ==> g in sent;
    assert forall g :: g in sent ==> g in init || g == f;
  }

  lemma LargestIsLast(sent: seq<Frame>, f: Frame)
    requires Increasing(sent) && f in sent && f.Frame?
    requires forall g :: g in sent ==> g.Frame? && g.sequence <= f.sequence
    ensures sent[|sent| - 1] == f && f !in sent[..|sent| - 1] && Increasing(sent[..|sent| - 1])
  {
    var p :| 0 <= p < |sent| && sent[p] == f;
    assert sent[|sent| - 1] in sent;
  }

  lemma AllBelow(init: seq<Frame>, f: Frame)
    requires Increasing(init + [f])
    ensures f.Frame? && f !in init && forall g :: g in init ==> g.Frame? && g.sequence < f.sequence
  {
    var frames := init + [f];
    assert frames[|init|] == f;
    forall g | g in init
      ensures g.Frame? && g.sequence < f.sequence
    {
      var i :| 0 <= i < |init| && init[i] == g;
      assert frames[i] == g;
    }
  }

  function StdoutOf(frames: seq<Frame>): string
    requires forall f :: f in frames ==> f.Frame?
  {
    TextOf(Payloads(frames), Stdout)
  }

  lemma StdoutSplits(a: seq<Frame>, b: seq<Frame>)
    requires forall f :: f in a + b ==> f.Frame?
    ensures forall f :: f in a || f in b ==> f.Frame?
    ensures StdoutOf(a + b) == StdoutOf(a) + StdoutOf(b)
  {
    hide TextOf;
    assert forall f :: f in a || f in b ==> f in a + b;
    assert Payloads(a + b) == Payloads(a) + Payloads(b);
    TextOfSplits(Payloads(a), Payloads(b), Stdout);
  }

  lemma StdoutOfOne(f: Frame)
    requires f.Frame?
    ensures StdoutOf([f]) == if f.event == Stdout then f.data else ""
  {
    var c := Chunk(f.event, f.data);
    assert Payloads([f]) == [] + [c];
    TextOfSnoc([], c, Stdout);
    assert TextOf([], Stdout) == "";
  }

  lemma StdoutOfLast(init: seq<Frame>, f: Frame, sent: seq<Frame>)
    requires f.Frame? && forall g :: g in init ==> g.Frame?
    ensures StdoutOf(Kept(init + [f], sent))
            == StdoutOf(Kept(init, sent)) + (if f in sent && f.event == Stdout then f.data else "")
  {
    hide StdoutOf;
    assert (init + [f])[..|init|] == init;
    var more := if f in sent then [f] else [];
    StdoutSplits(Kept(init, sent), more);
    if f in sent {
      StdoutOfOne(f);
    } else {
      assert Kept(init, sent) + [] == Kept(init, sent);
    }
    assert StdoutOf(Kept(init, sent)) + "" == StdoutOf(Kept(init, sent));
  }

  /** The standard output of kept frames depends on the standard output frames kept. */
  lemma {:induction false} StdoutByMembership(frames: seq<Frame>, a: seq<Frame>, b: seq<Frame>)
    requires forall f :: f in frames ==> f.Frame? && (f.event == Stdout ==> (f in a <==> f in b))
    ensures StdoutOf(Kept(frames, a)) == StdoutOf(Kept(frames, b))
  {
    hide StdoutOf;
    if frames != [] {
      var (init, f) := (frames[..|frames| - 1], frames[|frames| - 1]);
      assert frames == init + [f];
      StdoutByMembership(init, a, b);
      StdoutOfLast(init, f, a);
      StdoutOfLast(init, f, b);
    }
  }

  // ---------- What reaches the browser ----------

  /**
    The browser has received all that was sent on its connection; and either the relay stopped, or it
    has passed on all that was published since it subscribed.
   */
  predicate CaughtUp(s: Net) {
    && Following(s.conn) && s.received == |s.conn.relay.sent|
    && (s.conn.link.Live? ==> s.conn.inbox == [] && Announced(s) == |s.formatted|)
  }

  /** The list had not expired when the connection read it. */
  predicate ListUnexpired(c: Conn) {
    c.low == 0
  }

  predicate Ends(e: Event) {
    e == Complete || e == Error
  }

  /** Once a complete or an error chunk is out, no standard output follows. */
  predicate Quiet(events: seq<Chunk>) {
    forall i, j :: 0 <= i < j < |events| && Ends(events[i].event) ==> events[j].event != Stdout
  }

  function Without<T>(xs: seq<T>, i: nat): seq<T>
    requires i < |xs|
  {
    xs[..i] + xs[i + 1..]
  }

  /**
    What a connection gets of `xs`, numbered from 0: from the start of the snapshot on, without the one
    behind it if that was published before the subscription; or, if the list was empty, what was
    published since the subscription.
   */
  function Arriving<T>(xs: seq<T>, c: Conn): seq<T> {
    if c.low >= c.high then xs[Min(c.joinedAt, |xs|)..]
    else if c.high < Min(c.joinedAt, |xs|) then xs[c.low..c.high] + xs[c.high + 1..]
    else xs[Min(c.low, |xs|)..]
  }

  /** Number `i` of `k` is among them. */
  predicate ArrivesAt(c: Conn, k: nat, i: nat) {
    if c.low >= c.high then c.joinedAt <= i
    else c.low <= i && !(i == c.high && c.high < Min(c.joinedAt, k))
  }

  /** The frames before the first fault that the connection gets. */
  function Delivered(s: Net): seq<Frame>
    requires Clean(s) <= |s.formatted|
  {
    Arriving(s.formatted[..Clean(s)], s.conn)
  }

  /** Those from the first fault on that were sent. */
  function Late(s: Net): seq<Frame>
    requires Clean(s) <= |s.formatted|
  {
    Kept(s.formatted[Clean(s)..], s.conn.relay.sent)
  }

  lemma {:induction false} ReachingIsSorted(frames: seq<Frame>, faults: seq<Fault>, n: nat, sent: bool)
    requires n <= |frames| && n <= |faults| && InNumberOrder(frames)
    ensures var r := Reaching(frames, faults, n, sent);
            && Increasing(r) && (forall i :: 0 <= i < |r| ==> r[i].sequence < n)
            && forall f :: f in r <==> exists i :: 0 <= i < n && frames[i] == f && Reached(faults[i], sent)
    decreases n
  {
    hide Reached;
    if n > 0 {
      ReachingIsSorted(frames, faults, n - 1, sent);
      var (r, r') := (Reaching(frames, faults, n - 1, sent), Reaching(frames, faults, n, sent));
      forall f | f in r'
        ensures exists i :: 0 <= i < n && frames[i] == f && Reached(faults[i], sent)
      {
        if f !in r {
          assert frames[n - 1] == f && Reached(faults[n - 1], sent);
        }
      }
    }
  }

  lemma SliceIsSorted(frames: seq<Frame>, i: nat, j: nat)
    requires Increasing(frames) && i <= j <= |frames|
    ensures Increasing(frames[i..j]) && forall f :: f in frames[i..j] ==> f in frames
  {
  }

  /** The first `k` frames are where they belong. */
  predicate InPlace(xs: seq<Frame>, frames: seq<Frame>, k: nat) {
    forall i :: 0 <= i < k && i < |xs| && i < |frames| ==> xs[i] == frames[i]
  }

  /** What is known of a reachable state: channel and list hold frames in order, all of them before the first fault. */
  lemma Histories(s: Net)
    requires NetInvariant(s)
    ensures Clean(s) <= |s.formatted| && InNumberOrder(s.formatted)
    ensures Increasing(s.channel) && Increasing(s.listed)
    ensures forall f :: f in s.channel || f in s.listed ==> f in s.formatted
    ensures InPlace(s.channel, s.formatted, Clean(s)) && InPlace(s.listed, s.formatted, Clean(s))
    ensures Min(Clean(s), Announced(s)) <= |s.channel| && Min(Clean(s), Stowed(s)) <= |s.listed|
  {
    hide Reaching, ConnInvariant, InNumberOrder;
    OneHistory(s.formatted, s.faults, Announced(s), true);
    OneHistory(s.formatted, s.faults, Stowed(s), false);
  }

  lemma OneHistory(frames: seq<Frame>, faults: seq<Fault>, n: nat, sent: bool)
    requires n <= |frames| == |faults| && InNumberOrder(frames)
    ensures var (r, k) := (Reaching(frames, faults, n, sent), Handled(faults, |faults|));
            && Increasing(r) && (forall f :: f in r ==> f in frames)
            && InPlace(r, frames, k) && Min(k, n) <= |r| <= n
  {
    hide Reaching, InNumberOrder, Increasing, Handled;
    var (r, k) := (Reaching(frames, faults, n, sent), Handled(faults, |faults|));
    ReachingIsSorted(frames, faults, n, sent);
    ReachingIsShort(frames, faults, n, sent);
    var m := Min(k, n);
    ReachingWell(frames, faults, m, n, sent);
    assert forall i :: 0 <= i < m ==> r[i] == r[..m][i] == frames[..m][i];
  }

  /** `f` is above everything in `snapshot`. */
  predicate Above(f: Frame, snapshot: seq<Frame>) {
    snapshot != [] ==>
      var last := snapshot[|snapshot| - 1];
      f.Frame? && last.Frame? && f.sequence > last.sequence
  }

  lemma RelayOfConnection(s: Net)
    requires NetInvariant(s) && Following(s.conn)
    ensures var (c, n) := (s.conn, Processed(s.conn));
            && c.low <= c.high <= |s.listed| && c.joinedAt <= n <= |s.channel|
            && c.relay == OfferAll(OfferAll(NEW_RELAY, s.listed[c.low..c.high]), s.channel[c.joinedAt..n])
  {
    hide WorkerInvariant, OfferAll;
  }

  /** The filter's decisions on one connection. */
  lemma SentOnConnection(s: Net)
    requires NetInvariant(s) && Following(s.conn)
    ensures var (c, n) := (s.conn, Processed(s.conn));
            && c.low <= c.high <= |s.listed| && c.joinedAt <= n <= |s.channel|
            && Increasing(c.relay.sent)
            && (forall f :: f in c.relay.sent ==> f in s.formatted)
            && var snapshot := s.listed[c.low..c.high];
               forall f :: f in c.relay.sent <==>
                 f in snapshot || (f in s.channel[c.joinedAt..n] && Above(f, snapshot))
  {
    hide NetInvariant, OfferAll, Following, Processed, InNumberOrder, Increasing, InPlace, Clean, Announced, Stowed;
    Histories(s);
    RelayOfConnection(s);
    var (c, n) := (s.conn, Processed(s.conn));
    var (snapshot, live) := (s.listed[c.low..c.high], s.channel[c.joinedAt..n]);
    SliceIsSorted(s.listed, c.low, c.high);
    SliceIsSorted(s.channel, c.joinedAt, n);
    SentIff(snapshot, live);
  }

  // ---------- Which frames reach the browser ----------

  /** Before the first fault a frame is sent exactly if it is among those that arrive and has been processed. */
  lemma CleanFrameSent(s: Net, i: nat)
    requires NetInvariant(s) && Following(s.conn) && i < Clean(s) <= |s.formatted| && i < Processed(s.conn)
    ensures s.formatted[i] in s.conn.relay.sent <==> ArrivesAt(s.conn, Clean(s), i)
  {
    hide NetInvariant, Clean, Processed, Following, Increasing, InNumberOrder, InPlace, Above, Announced, Stowed;
    Histories(s);
    SentOnConnection(s);
    AtMostOneLost(s);
    var (c, n) := (s.conn, Processed(s.conn));
    InSnapshot(s.formatted, s.listed, Clean(s), i, c.low, c.high);
    InChannel(s.formatted, s.channel, Clean(s), i, c.joinedAt, n);
  }

  lemma InSnapshot(frames: seq<Frame>, listed: seq<Frame>, k: nat, i: nat, low: nat, high: nat)
    requires InNumberOrder(frames) && Increasing(listed) && InPlace(listed, frames, k)
    requires i < k <= |frames| && low <= high <= |listed|
    ensures frames[i] in listed[low..high] <==> low <= i < high
    ensures Above(frames[i], listed[low..high]) <==> low == high || high <= i
  {
    if low <= i < high {
      assert listed[low..high][i - low] == frames[i];
    }
    if low < high {
      var last := listed[high - 1];
      assert listed[low..high][high - low - 1] == last;
      if i < high {
        assert listed[i] == frames[i];
      } else {
        assert last == frames[high - 1];
      }
    }
    if i < low {
      assert forall q :: low <= q < high ==> listed[q].sequence > listed[i].sequence;
    } else {
      assert forall q :: low <= q < high && q < k ==> listed[q] == frames[q];
    }
  }

  lemma InChannel(frames: seq<Frame>, channel: seq<Frame>, k: nat, i: nat, j: nat, n: nat)
    requires InNumberOrder(frames) && Increasing(channel) && InPlace(channel, frames, k)
    requires i < k <= |frames| && j <= n <= |channel| && i < n
    ensures frames[i] in channel[j..n] <==> j <= i
  {
    assert channel[i] == frames[i];
    if j <= i {
      assert channel[j..n][i - j] == frames[i];
    } else {
      assert forall q :: j <= q < n ==> channel[q].sequence > channel[i].sequence;
    }
  }

  /** What the browser gets of the standard output frames before the first fault. */
  lemma DeliveredAreSent(s: Net, events: seq<Chunk>)
    requires NetInvariant(s) && CaughtUp(s) && s.formatted == Numbered(events, 0) && Quiet(events)
    ensures Clean(s) <= |s.formatted|
    ensures forall i :: 0 <= i < Clean(s) && s.formatted[i].event == Stdout ==>
              (s.formatted[i] in s.conn.relay.sent <==> ArrivesAt(s.conn, Clean(s), i))
  {
    hide NetInvariant, Clean, Quiet, Processed, ArrivesAt, Announced, Stowed, Increasing, InNumberOrder, InPlace;
    Histories(s);
    forall i | 0 <= i < Clean(s) && s.formatted[i].event == Stdout
      ensures s.formatted[i] in s.conn.relay.sent <==> ArrivesAt(s.conn, Clean(s), i)
    {
      ProcessedStdout(s, events, i);
      CleanFrameSent(s, i);
    }
  }

  lemma AtMostOneLost(s: Net)
    requires NetInvariant(s) && Following(s.conn)
    ensures Min(s.conn.joinedAt, Clean(s)) <= s.conn.high + 1
  {
    hide WorkerInvariant, Relayed;
  }

  /** When the browser has caught up, every standard output frame before the first fault has been processed. */
  lemma ProcessedStdout(s: Net, events: seq<Chunk>, i: nat)
    requires NetInvariant(s) && CaughtUp(s) && s.formatted == Numbered(events, 0) && Quiet(events)
    requires i < Clean(s) <= |s.formatted| && s.formatted[i].event == Stdout
    ensures i < Processed(s.conn)
  {
    hide WorkerInvariant, Relayed, InNumberOrder, Increasing, InPlace, Clean;
    Histories(s);
    if s.conn.link.Stopped? && Processed(s.conn) <= i {
      LastProcessedEnds(s, events);
    }
  }

  lemma LastProcessedEnds(s: Net, events: seq<Chunk>)
    requires NetInvariant(s) && s.conn.link.Stopped? && s.formatted == Numbered(events, 0)
    requires Processed(s.conn) <= Clean(s) <= |s.formatted|
    ensures 0 < Processed(s.conn) && Ends(events[Processed(s.conn) - 1].event)
  {
    hide WorkerInvariant, Relayed, InNumberOrder, Increasing, Clean;
    Histories(s);
    var n := Processed(s.conn);
    assert s.channel[n - 1] == s.formatted[n - 1];
  }

  // ---------- What the browser shows ----------

  lemma {:induction false} KeptIsSorted(frames: seq<Frame>, sent: seq<Frame>)
    requires Increasing(frames)
    ensures Increasing(Kept(frames, sent))
    ensures forall f :: f in Kept(frames, sent) <==> f in frames && f in sent
  {
    if frames != [] {
      var (init, f) := (frames[..|frames| - 1], frames[|frames| - 1]);
      assert frames == init + [f];
      KeptIsSorted(init, sent);
      AllBelow(init, f);
    }
  }

  /** The delivered frames and the late ones, in order. */
  lemma ArrivedIsSorted(s: Net)
    requires Clean(s) <= |s.formatted| && InNumberOrder(s.formatted)
    ensures var arrived := Delivered(s) + Late(s);
            && Increasing(arrived) && Increasing(Delivered(s)) && Increasing(Late(s))
            && (forall f :: f in arrived ==> f in s.formatted)
            && forall i :: 0 <= i < |s.formatted| ==>
                 (s.formatted[i] in arrived <==>
                    if i < Clean(s) then ArrivesAt(s.conn, Clean(s), i) else s.formatted[i] in s.conn.relay.sent)
  {
    hide Increasing, Clean, ArrivesAt, Arriving, Kept, InNumberOrder;
    var (frames, k, d, late) := (s.formatted, Clean(s), Delivered(s), Late(s));
    ArrivingIsSorted(frames, k, s.conn);
    TailIsSorted(frames, k);
    KeptIsSorted(frames[k..], s.conn.relay.sent);
    JoinSorted(d, late, k);
    forall i | 0 <= i < |frames|
      ensures frames[i] in d + late <==>
                if i < k then ArrivesAt(s.conn, k, i) else frames[i] in s.conn.relay.sent
    {
      NumberOf(frames, i);
      if i >= k {
        assert frames[k..][i - k] == frames[i];
      }
    }
  }

  lemma NumberOf(frames: seq<Frame>, i: nat)
    requires InNumberOrder(frames) && i < |frames|
    ensures frames[i].Frame? && frames[i].sequence == i
  {
  }

  lemma TailIsSorted(frames: seq<Frame>, k: nat)
    requires InNumberOrder(frames) && k <= |frames|
    ensures Increasing(frames[k..]) && forall f :: f in frames[k..] ==> f.Frame? && f.sequence >= k && f in frames
  {
  }

  /** Arriving is one piece or two. */
  lemma ArrivingInPieces<T>(xs: seq<T>, c: Conn) returns (a: nat, b: nat, e: nat)
    ensures a <= b <= e <= |xs| && Arriving(xs, c) == xs[a..b] + xs[e..]
    ensures forall i: nat :: i < |xs| ==> (ArrivesAt(c, |xs|, i) <==> a <= i < b || e <= i)
  {
    if c.low < c.high < Min(c.joinedAt, |xs|) {
      a, b, e := c.low, c.high, c.high + 1;
    } else {
      a := if c.low >= c.high then Min(c.joinedAt, |xs|) else Min(c.low, |xs|);
      b, e := a, a;
      assert xs[a..b] + xs[e..] == xs[e..];
    }
  }

  lemma ArrivingIsSorted(frames: seq<Frame>, k: nat, c: Conn)
    requires k <= |frames| && InNumberOrder(frames)
    ensures var d := Arriving(frames[..k], c);
            && Increasing(d)
            && (forall f :: f in d ==> f.Frame? && f.sequence < k && f in frames)
            && forall i :: 0 <= i < k ==> (frames[i] in d <==> ArrivesAt(c, k, i))
  {
    hide Arriving, ArrivesAt, InNumberOrder, Increasing;
    var a, b, e := ArrivingInPieces(frames[..k], c);
    assert frames[..k][a..b] == frames[a..b] && frames[..k][e..] == frames[e..k];
    PiecesAreSorted(frames, a, b, e, k);
  }

  lemma PiecesAreSorted(frames: seq<Frame>, a: nat, b: nat, e: nat, k: nat)
    requires a <= b <= e <= k <= |frames| && InNumberOrder(frames)
    ensures var d := frames[a..b] + frames[e..k];
            && Increasing(d)
            && (forall f :: f in d ==> f.Frame? && f.sequence < k && f in frames)
            && forall i :: 0 <= i < k ==> (frames[i] in d <==> a <= i < b || e <= i)
  {
    var d := frames[a..b] + frames[e..k];
    var gap := b - a;
    assert forall p :: 0 <= p < |d| ==> d[p] == frames[if p < gap then a + p else e + p - gap];
    forall i | 0 <= i < k && (a <= i < b || e <= i)
      ensures frames[i] in d
    {
      assert d[if i < b then i - a else i - e + gap] == frames[i];
    }
  }

  lemma JoinSorted(a: seq<Frame>, b: seq<Frame>, k: nat)
    requires Increasing(a) && Increasing(b)
    requires forall f :: f in a ==> f.Frame? && f.sequence < k
    requires forall f :: f in b ==> f.Frame? && f.sequence >= k
    ensures Increasing(a + b)
  {
  }

  /** The chunks before the first fault that the connection gets. */
  function DeliveredChunks(s: Net, events: seq<Chunk>): seq<Chunk>
    requires Clean(s) <= |events|
  {
    Arriving(events[..Clean(s)], s.conn)
  }

  lemma DeliveredText(s: Net, events: seq<Chunk>)
    requires s.formatted == Numbered(events, 0) && Clean(s) <= |events|
    requires forall f :: f in Delivered(s) ==> f.Frame?
    ensures StdoutOf(Delivered(s)) == TextOf(DeliveredChunks(s, events), Stdout)
  {
    hide TextOf, Clean;
    PayloadsArrive(s.formatted[..Clean(s)], events[..Clean(s)], s.conn);
  }

  lemma PayloadsArrive(frames: seq<Frame>, events: seq<Chunk>, c: Conn)
    requires |frames| == |events|
    requires forall i :: 0 <= i < |events| ==>
               frames[i].Frame? && Chunk(frames[i].event, frames[i].data) == events[i]
    ensures forall f :: f in Arriving(frames, c) ==> f.Frame?
    ensures Payloads(Arriving(frames, c)) == Arriving(events, c)
  {
    assert forall f :: f in Arriving(frames, c) ==> f in frames;
  }

  /** The standard output sent on a connection whose browser has caught up. */
  lemma SentText(s: Net, events: seq<Chunk>)
    requires NetInvariant(s) && CaughtUp(s) && s.formatted == Numbered(events, 0) && Quiet(events)
    ensures Clean(s) <= |events| && Increasing(s.conn.relay.sent) && Increasing(Late(s))
    ensures StdoutOf(s.conn.relay.sent) == TextOf(DeliveredChunks(s, events), Stdout) + StdoutOf(Late(s))
  {
    hide NetInvariant, Clean, Quiet, Kept, StdoutOf, Delivered, Late, TextOf, InNumberOrder, Increasing;
    hide ArrivesAt, Above, InPlace, DeliveredChunks, Announced, Stowed;
    Histories(s);
    SentOnConnection(s);
    DeliveredAreSent(s, events);
    ArrivedIsSorted(s);
    var (frames, sent, d, late) := (s.formatted, s.conn.relay.sent, Delivered(s), Late(s));
    InOrderIsIncreasing(frames);
    SentIsKept(frames, sent);
    SentIsKept(frames, d + late);
    forall f | f in frames
      ensures f.Frame? && (f.event == Stdout ==> (f in sent <==> f in d + late))
    {
      var i :| 0 <= i < |frames| && frames[i] == f;
    }
    StdoutByMembership(frames, sent, d + late);
    StdoutSplits(d, late);
    DeliveredText(s, events);
  }

  lemma InOrderIsIncreasing(frames: seq<Frame>)
    requires InNumberOrder(frames)
    ensures Increasing(frames)
  {
  }

  // ---------- The first frame with a fault ----------

  /** A sorted history that starts with the first `k` frames has frame `k` at that place or not at all. */
  lemma PlaceOf(xs: seq<Frame>, frames: seq<Frame>, k: nat)
    requires InNumberOrder(frames) && Increasing(xs) && InPlace(xs, frames, k) && k <= |xs| && k < |frames|
    requires forall f :: f in xs ==> f in frames
    ensures forall m: nat :: m <= |xs| ==> (frames[k] in xs[..m] <==> k < m && xs[k] == frames[k])
    ensures k < |xs| && xs[k] != frames[k] ==> xs[k].sequence > k
  {
    assert forall i :: 0 <= i < k ==> xs[i] == frames[i];
    if k < |xs| {
      assert xs[k] in frames;
      assert k > 0 ==> xs[k - 1].sequence < xs[k].sequence;
      assert xs[k].sequence >= k;
      assert forall q :: k < q < |xs| ==> xs[q].sequence > xs[k].sequence;
    }
    forall m: nat | m <= |xs|
      ensures frames[k] in xs[..m] <==> k < m && xs[k] == frames[k]
    {
      if frames[k] in xs[..m] {
        var p :| 0 <= p < m && xs[p] == frames[k];
        assert p >= k;
      } else if k < m {
        assert xs[..m][k] == xs[k];
      }
    }
  }

  /** The snapshot has number `k`, or it is empty or ends before it and the channel brought number `k`. */
  predicate Brings(c: Conn, k: nat, sent: bool, stored: bool) {
    || (stored && c.low <= k < c.high)
    || (sent && c.joinedAt <= k < Processed(c) && (c.low == c.high || c.high <= k))
  }

  /** When the first frame with a fault is sent. */
  lemma FaultyFrameSent(s: Net)
    requires NetInvariant(s) && Following(s.conn) && s.order == PublishFirst
    requires Clean(s) < Done(s) <= |s.formatted| == |s.faults|
    ensures var (k, fault) := (Clean(s), s.faults[Clean(s)]);
            s.formatted[k] in s.conn.relay.sent <==> Brings(s.conn, k, Sent(fault), Stored(fault))
  {
    var (k, c, n) := (Clean(s), s.conn, Processed(s.conn));
    hide NetInvariant, Clean, Processed, Following, Increasing, InNumberOrder, Sent, Stored, InPlace, Above;
    Histories(s);
    SentOnConnection(s);
    FaultyFrameKept(s);
    FaultyInSnapshot(s.formatted, s.listed, k, c.low, c.high);
    PlaceOf(s.channel, s.formatted, k);
    InSlice(s.channel, s.formatted[k], k, c.joinedAt, n);
    assert s.channel[..|s.channel|] == s.channel;
  }

  lemma FaultyInSnapshot(frames: seq<Frame>, listed: seq<Frame>, k: nat, low: nat, high: nat)
    requires InNumberOrder(frames) && Increasing(listed) && InPlace(listed, frames, k)
    requires k <= |listed| && k < |frames| && low <= high <= |listed|
    requires forall f :: f in listed ==> f in frames
    ensures var (f, snapshot) := (frames[k], listed[low..high]);
            && (f in snapshot <==> f in listed && low <= k < high)
            && (f !in snapshot ==> (Above(f, snapshot) <==> low == high || high <= k))
  {
    hide Above;
    PlaceOf(listed, frames, k);
    InSlice(listed, frames[k], k, low, high);
    assert listed[..|listed|] == listed;
    if frames[k] !in listed[low..high] {
      AboveSnapshot(listed, frames, k, low, high);
    }
  }

  lemma FaultyFrameKept(s: Net)
    requires NetInvariant(s) && s.order == PublishFirst && Clean(s) < Done(s) <= |s.formatted| == |s.faults|
    ensures s.formatted[Clean(s)] in s.listed <==> Stored(s.faults[Clean(s)])
    ensures s.formatted[Clean(s)] in s.channel <==> Sent(s.faults[Clean(s)])
  {
    hide ConnInvariant, Handled, Sent, Stored, Reaching;
    ReachingHas(s.formatted, s.faults, Announced(s), Clean(s), true);
    ReachingHas(s.formatted, s.faults, Stowed(s), Clean(s), false);
  }

  lemma ReachingHas(frames: seq<Frame>, faults: seq<Fault>, n: nat, i: nat, sent: bool)
    requires i < n <= |frames| == |faults| && InNumberOrder(frames)
    ensures frames[i] in Reaching(frames, faults, n, sent) <==> Reached(faults[i], sent)
  {
    hide Reaching, Reached;
    ReachingIsSorted(frames, faults, n, sent);
  }

  lemma InSlice(xs: seq<Frame>, f: Frame, k: nat, i: nat, j: nat)
    requires Increasing(xs) && i <= j <= |xs| && forall m: nat :: m <= |xs| ==> (f in xs[..m] <==> k < m && xs[k] == f)
    ensures f in xs[i..j] <==> i <= k < j && xs[k] == f
  {
    if i <= k < j && xs[k] == f {
      assert xs[i..j][k - i] == f;
    }
    assert k < |xs| ==> forall q :: k < q < |xs| ==> xs[q].sequence > xs[k].sequence;
    if f in xs[i..j] {
      var p :| i <= p < j && xs[p] == f;
      assert f in xs[..p + 1] by {
        assert xs[..p + 1][p] == f;
      }
    }
  }

  lemma AboveSnapshot(listed: seq<Frame>, frames: seq<Frame>, k: nat, low: nat, high: nat)
    requires InNumberOrder(frames) && Increasing(listed) && InPlace(listed, frames, k) && k < |frames|
    requires low <= high <= |listed|
    requires k < |listed| && listed[k] != frames[k] ==> listed[k].sequence > k
    requires low <= k < high ==> listed[k] != frames[k]
    ensures Above(frames[k], listed[low..high]) <==> low == high || high <= k
  {
    if low < high {
      assert listed[low..high][high - low - 1] == listed[high - 1];
      if high <= k {
        assert listed[high - 1] == frames[high - 1];
      } else {
        assert k < high - 1 ==> listed[k].sequence < listed[high - 1].sequence;
      }
    }
  }
}
