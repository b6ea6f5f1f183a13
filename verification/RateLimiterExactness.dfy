/**
  Exactly when the rate limiter keeps its bound, and exactly when the expiry of its key is invisible,
  with the runs that break them.
 */
module RateLimiterExactness {
  import opened Models
  import opened RateLimiting
  import opened RateLimiterLaws

  /**
    What a run may do: at most `inFlight` requests at once between check and record, clock readings at
    most `delay` behind and `ahead` ahead of Redis' clock, and at most `slack` earlier than the one before.
   */
  datatype Regime = Regime(inFlight: nat, delay: real, ahead: real, slack: real)

  /** The width of the band around Redis' clock in which readings lie. */
  function Spread(r: Regime): real {
    r.delay + r.ahead
  }

  predicate Conforms(s: Limiter, labels: seq<Label>, r: Regime) {
    && Runs(s, labels) && Ordered(s, labels, r.slack)
    && AllPrompt(s, labels, r.delay) && AllSynced(s, labels, r.ahead)
    && Bounded(s, labels, r.inFlight)
  }

  // ---------- Composing runs ----------

  predicate Fits(s: Limiter, l: Label, r: Regime) {
    Enabled(s, l) && InOrder(s, l, r.slack) && Prompt(s, l, r.delay) && Synced(s, l, r.ahead)
  }

  lemma ConformsStep(s: Limiter, labels: seq<Label>, r: Regime)
    requires Conforms(s, labels, r) && labels != []
    ensures Fits(s, labels[0], r) && |s.pending| <= r.inFlight && Conforms(Next(s, labels[0]), labels[1..], r)
    ensures |Next(s, labels[0]).pending| <= r.inFlight
    ensures After(s, labels) == After(Next(s, labels[0]), labels[1..])
  {
    hide Enabled, Next;
  }

  lemma NothingDone(s: Limiter, r: Regime)
    requires |s.pending| <= r.inFlight
    ensures Conforms(s, [], r) && After(s, []) == s
  {
  }

  lemma NoSteps(s: Limiter)
    ensures Runs(s, []) && After(s, []) == s
  {
  }

  lemma Prefixed(s: Limiter, l: Label, rest: seq<Label>, r: Regime)
    requires Fits(s, l, r) && |s.pending| <= r.inFlight && Conforms(Next(s, l), rest, r)
    ensures Conforms(s, [l] + rest, r) && After(s, [l] + rest) == After(Next(s, l), rest)
  {
    hide Enabled, Next, InOrder, Prompt, Synced;
    assert ([l] + rest)[1..] == rest;
  }

  lemma {:induction false} Concatenated(s: Limiter, a: seq<Label>, b: seq<Label>, r: Regime)
    requires Conforms(s, a, r) && Conforms(After(s, a), b, r)
    ensures Conforms(s, a + b, r) && After(s, a + b) == After(After(s, a), b)
    decreases a
  {
    hide Ordered, AllPrompt, AllSynced, Bounded, Runs, After, Next, Enabled, InOrder, Prompt, Synced;
    if a == [] {
      NoSteps(s);
      assert a + b == b;
    } else {
      ConformsStep(s, a, r);
      Concatenated(Next(s, a[0]), a[1..], b, r);
      Prefixed(s, a[0], a[1..] + b, r);
      assert [a[0]] + (a[1..] + b) == a + b;
    }
  }

  lemma Snoc(s: Limiter, a: seq<Label>, l: Label, r: Regime)
    requires Conforms(s, a, r) && Fits(After(s, a), l, r)
    requires |After(s, a).pending| <= r.inFlight && |Next(After(s, a), l).pending| <= r.inFlight
    ensures Conforms(s, a + [l], r) && After(s, a + [l]) == Next(After(s, a), l)
  {
    hide Ordered, AllPrompt, AllSynced, Bounded, Runs, After, Next, Enabled, InOrder, Prompt, Synced;
    NothingDone(Next(After(s, a), l), r);
    Prefixed(After(s, a), l, [], r);
    assert [l] + [] == [l];
    Concatenated(s, a, [l], r);
  }

  lemma {:induction false} Relaxed(s: Limiter, labels: seq<Label>, r: Regime, q: Regime)
    requires Conforms(s, labels, r)
    requires r.inFlight <= q.inFlight && r.delay <= q.delay && r.ahead <= q.ahead && r.slack <= q.slack
    ensures Conforms(s, labels, q)
    decreases labels
  {
    if labels == [] {
      NothingDone(s, q);
    } else {
      hide Conforms, Next, Enabled;
      ConformsStep(s, labels, r);
      Relaxed(Next(s, labels[0]), labels[1..], r, q);
      Prefixed(s, labels[0], labels[1..], q);
      assert [labels[0]] + labels[1..] == labels;
    }
  }

  // ---------- Filling a window ----------

  /**
    `n` recorded and `p` pending requests, all with the reading `at`; with `before` others they are
    the window that ends there. Ids have been given out in order.
   */
  predicate Busy(s: Limiter, at: real, before: nat, n: nat, p: nat) {
    && Bookkeeping(s) && 0.0 <= at && s.lastCheck <= at
    && |s.zset| == n && |s.pending| == p
    && (forall id :: id in s.zset ==> s.zset[id] == at)
    && (forall id :: id in s.pending ==> s.pending[id] == at && id !in s.zset)
    && (forall id :: id in s.seen ==> id < before + n + p)
    && |InWindow(s, at)| == before + n + p
    && (before == 0 ==> forall id :: id in s.accepted ==> s.accepted[id] == at)
    && (n > 0 ==> s.deadline == Some(s.clock + s.window + GRACE))
  }

  predicate Timely(s: Limiter, at: real, r: Regime) {
    -r.ahead <= s.clock - at <= r.delay
  }

  lemma AddedTo<T>(m: map<nat, T>, id: nat, x: T)
    requires id !in m
    ensures |m[id := x]| == |m| + 1
  {
    assert m[id := x].Keys == m.Keys + {id};
  }

  lemma NothingToPurge(s: Limiter, at: real)
    requires s.window > 0.0 && forall id :: id in s.zset ==> s.zset[id] == at
    ensures Counted(s, at) == s.zset
  {
  }

  lemma NextIsNew(s: Limiter, at: real, before: nat, n: nat, p: nat)
    requires Busy(s, at, before, n, p)
    ensures var id := before + n + p;
            id !in s.seen && id !in s.accepted && id !in s.pending && id !in s.zset
    ensures Bookkeeping(s) && s.window > 0.0 && at >= 0.0
    ensures |s.zset| == n && |s.pending| == p && |InWindow(s, at)| == before + n + p
    ensures Counted(s, at) == s.zset
  {
    hide InWindow;
    NothingToPurge(s, at);
  }

  lemma BusyCheck(s: Limiter, at: real, before: nat, n: nat, p: nat)
    requires Busy(s, at, before, n, p) && n < s.maxRequests
    ensures var id := before + n + p;
            && Enabled(s, Check(id, at)) && Busy(Next(s, Check(id, at)), at, before, n, p + 1)
            && id in Next(s, Check(id, at)).pending
  {
    hide Counted, InWindow, Bookkeeping, Busy, Next;
    var id := before + n + p;
    NextIsNew(s, at, before, n, p);
    AddedTo(s.pending, id, at);
    BookkeepingIsKept(s, Check(id, at));
    CheckedState(s, id, at);
    var s' := Next(s, Check(id, at));
    WindowGrows(s, s', id, at, at);
    BusyGrows(s, s', at, before, n, p);
  }

  lemma CheckedState(s: Limiter, id: nat, at: real)
    requires Enabled(s, Check(id, at)) && Counted(s, at) == s.zset && |s.zset| < s.maxRequests
    ensures var s' := Next(s, Check(id, at));
            && (s'.zset, s'.clock, s'.window, s'.lastCheck) == (s.zset, s.clock, s.window, at)
            && s'.seen == s.seen + {id} && s'.pending == s.pending[id := at] && s'.accepted == s.accepted[id := at]
            && (s.zset != map[] ==> s'.deadline == s.deadline)
  {
    hide Counted;
  }

  lemma BusyGrows(s: Limiter, s': Limiter, at: real, before: nat, n: nat, p: nat)
    requires Busy(s, at, before, n, p) && Bookkeeping(s') && before + n + p !in s.zset
    requires (s'.zset, s'.clock, s'.window, s'.lastCheck) == (s.zset, s.clock, s.window, at)
    requires var id := before + n + p;
             s'.seen == s.seen + {id} && s'.pending == s.pending[id := at] && s'.accepted == s.accepted[id := at]
    requires s.zset != map[] ==> s'.deadline == s.deadline
    requires |s'.pending| == p + 1 && |InWindow(s', at)| == before + n + p + 1
    ensures Busy(s', at, before, n, p + 1)
  {
    hide InWindow, Bookkeeping;
  }

  lemma RecordMoves(s: Limiter, id: nat)
    requires id in s.pending && id !in s.zset
    ensures |s.zset[id := s.pending[id]]| == |s.zset| + 1 && |s.pending - {id}| == |s.pending| - 1
  {
    assert s.zset[id := s.pending[id]].Keys == s.zset.Keys + {id};
    assert (s.pending - {id}).Keys == s.pending.Keys - {id};
  }

  lemma RecordedState(s: Limiter, id: nat)
    requires id in s.pending
    ensures Next(s, Record(id)) == s.(zset := s.zset[id := s.pending[id]], pending := s.pending - {id},
                                      deadline := Some(s.clock + s.window + GRACE))
  {
  }

  lemma BusyRecord(s: Limiter, at: real, before: nat, n: nat, p: nat, id: nat)
    requires Busy(s, at, before, n, p) && id in s.pending
    ensures p > 0 && Busy(Next(s, Record(id)), at, before, n + 1, p - 1)
  {
    assert id !in s.zset && Bookkeeping(s);
    hide InWindow, Bookkeeping, Next, Busy;
    BookkeepingIsKept(s, Record(id));
    RecordMoves(s, id);
    RecordedState(s, id);
    SameAccepted(s, Next(s, Record(id)), at);
    BusyMoves(s, Next(s, Record(id)), at, before, n, p, id);
  }

  lemma BusyMoves(s: Limiter, s': Limiter, at: real, before: nat, n: nat, p: nat, id: nat)
    requires Busy(s, at, before, n, p) && id in s.pending && Bookkeeping(s') && InWindow(s', at) == InWindow(s, at)
    requires s' == s.(zset := s.zset[id := s.pending[id]], pending := s.pending - {id},
                      deadline := Some(s.clock + s.window + GRACE))
    requires |s'.zset| == |s.zset| + 1 && |s'.pending| == |s.pending| - 1
    ensures p > 0 && Busy(s', at, before, n + 1, p - 1)
  {
    hide InWindow, Bookkeeping;
  }

  lemma SameAccepted(s: Limiter, s': Limiter, at: real)
    requires (s'.accepted, s'.window) == (s.accepted, s.window)
    ensures InWindow(s', at) == InWindow(s, at)
  {
  }

  lemma BusyFacts(s: Limiter, at: real, before: nat, n: nat, p: nat)
    requires Busy(s, at, before, n, p)
    ensures s.lastCheck <= at && |s.pending| == p && |InWindow(s, at)| == before + n + p
    ensures p > 0 ==> s.pending != map[]
  {
    hide InWindow;
  }

  lemma SameLimits(s: Limiter, l: Label)
    requires Enabled(s, l)
    ensures var s' := Next(s, l);
            && (s'.maxRequests, s'.window, s'.expires) == (s.maxRequests, s.window, s.expires)
            && (!l.Tick? ==> s'.clock == s.clock)
  {
    hide Counted;
  }

  /** From then on the quota is filled one request at a time, and the last place by `r.inFlight` at once. */
  lemma {:induction false} FillUp(s: Limiter, at: real, before: nat, n: nat, p: nat, r: Regime)
    returns (labels: seq<Label>)
    requires Busy(s, at, before, n, p) && Timely(s, at, r) && r.slack >= 0.0
    requires 1 <= r.inFlight && p <= r.inFlight && n < s.maxRequests && (p > 0 ==> n == s.maxRequests - 1)
    ensures Conforms(s, labels, r)
    ensures Busy(After(s, labels), at, before, s.maxRequests - 1, r.inFlight) && After(s, labels).clock == s.clock
    decreases s.maxRequests - n, r.inFlight - p
  {
    hide Busy, Next, After, Conforms, Enabled;
    BusyFacts(s, at, before, n, p);
    if n == s.maxRequests - 1 && p == r.inFlight {
      labels := [];
      NothingDone(s, r);
    } else {
      var id := before + n + p;
      BusyCheck(s, at, before, n, p);
      var s1 := Next(s, Check(id, at));
      BusyFacts(s1, at, before, n, p + 1);
      SameLimits(s, Check(id, at));
      if n == s.maxRequests - 1 {
        var rest := FillUp(s1, at, before, n, p + 1, r);
        Prefixed(s, Check(id, at), rest, r);
        labels := [Check(id, at)] + rest;
      } else {
        BusyRecord(s1, at, before, n, 1, id);
        CanRecord(s1, id);
        SameLimits(s1, Record(id));
        var s2 := Next(s1, Record(id));
        var rest := FillUp(s2, at, before, n + 1, 0, r);
        Prefixed(s1, Record(id), rest, r);
        Prefixed(s, Check(id, at), [Record(id)] + rest, r);
        labels := [Check(id, at)] + ([Record(id)] + rest);
      }
    }
  }

  lemma CanRecord(s: Limiter, id: nat)
    requires id in s.pending
    ensures Enabled(s, Record(id))
  {
  }

  /** All pending requests are recorded. */
  lemma {:induction false} RecordAll(s: Limiter, at: real, before: nat, n: nat, p: nat, r: Regime)
    returns (labels: seq<Label>)
    requires Busy(s, at, before, n, p) && p <= r.inFlight
    ensures Conforms(s, labels, r)
    ensures Busy(After(s, labels), at, before, n + p, 0) && After(s, labels).clock == s.clock
    decreases p
  {
    hide Busy, Next, After, Conforms, Enabled;
    BusyFacts(s, at, before, n, p);
    if p == 0 {
      labels := [];
      NothingDone(s, r);
    } else {
      var id :| id in s.pending;
      BusyRecord(s, at, before, n, p, id);
      CanRecord(s, id);
      SameLimits(s, Record(id));
      var rest := RecordAll(Next(s, Record(id)), at, before, n + 1, p - 1, r);
      Prefixed(s, Record(id), rest, r);
      labels := [Record(id)] + rest;
    }
  }

  /** A first clock reading that is not negative, as far ahead of Redis' clock as allowed. */
  function Start(r: Regime): real {
    if r.ahead < 0.0 then -r.ahead else 0.0
  }

  lemma Started(maxRequests: int, window: real, expires: bool, r: Regime) returns (labels: seq<Label>)
    requires window > 0.0
    ensures var s := Init(maxRequests, window, expires);
            && Conforms(s, labels, r)
            && After(s, labels) == s.(clock := Start(r))
            && Busy(After(s, labels), Start(r) + r.ahead, 0, 0, 0)
  {
    var s := Init(maxRequests, window, expires);
    labels := [Tick(Start(r))];
    assert labels[1..] == [];
    assert InWindow(s.(clock := Start(r)), Start(r) + r.ahead) == {};
  }

  /**
    The bound cannot be improved: for every quota and every number of concurrent requests some run fills a
    window to it.
   */
  lemma BoundIsReached(maxRequests: int, window: real, r: Regime) returns (labels: seq<Label>, t: real)
    requires maxRequests >= 1 && window > 0.0 && r.inFlight >= 1 && r.slack >= 0.0 && Spread(r) >= 0.0
    ensures var s := Init(maxRequests, window, true);
            Conforms(s, labels, r) && |InWindow(After(s, labels), t)| == maxRequests + r.inFlight - 1
  {
    hide After, Runs, Ordered, AllPrompt, AllSynced, Bounded, InWindow, Busy;
    var s := Init(maxRequests, window, true);
    t := Start(r) + r.ahead;
    var first := Started(maxRequests, window, true, r);
    var rest := FillUp(After(s, first), t, 0, 0, 0, r);
    labels := first + rest;
    Concatenated(s, first, rest, r);
    BusyFacts(After(s, labels), t, 0, maxRequests - 1, r.inFlight);
  }

  // ---------- Late readings ----------

  /** `recorded` requests, and then silence until the key has expired. */
  lemma SilenceExpires(s: Limiter, at: real, n: nat)
    requires Busy(s, at, 0, n, 0) && s.expires && n > 0
    ensures var s' := Next(s, Tick(s.window + GRACE));
            && s'.zset == map[] && s'.pending == map[] && s'.clock == s.clock + s.window + GRACE
            && (s'.accepted, s'.seen, s'.lastCheck, s'.window, s'.maxRequests)
               == (s.accepted, s.seen, s.lastCheck, s.window, s.maxRequests)
            && Bookkeeping(s')
  {
    hide InWindow;
    assert s.pending.Keys == {};
  }

  /** The reading of a check that is as late as allowed. */
  function LateReading(s: Limiter, at: real, r: Regime): real {
    MaxReal(at, s.clock - r.delay)
  }

  /** After an expired key a late check still has the old requests in its window, but does not find them. */
  lemma LateWindow(s: Limiter, at: real, n: nat, r: Regime)
    requires Busy(s, at, 0, n, 0) && s.expires && n > 0 && at == s.clock + r.ahead && Spread(r) > GRACE
    ensures var s' := Next(s, Tick(s.window + GRACE));
            var late := LateReading(s', at, r);
            && Busy(s', late, n, 0, 0) && Timely(s', late, r)
            && late - s.window < at <= late
  {
    hide InWindow;
    SilenceExpires(s, at, n);
    var s' := Next(s, Tick(s.window + GRACE));
    var late := LateReading(s', at, r);
    SameWindow(s, s', at, late, n);
  }

  lemma SameWindow(s: Limiter, s': Limiter, at: real, late: real, n: nat)
    requires Busy(s, at, 0, n, 0) && (s'.accepted, s'.window) == (s.accepted, s.window)
    requires late - s.window < at <= late
    ensures |InWindow(s', late)| == n
  {
    assert InWindow(s', late) == InWindow(s, at);
  }

  /** A single request, recorded, and silence until the key has expired. */
  lemma OneThenSilence(maxRequests: int, window: real, r: Regime) returns (labels: seq<Label>)
    requires maxRequests >= 1 && window > 0.0 && r.inFlight >= 1 && r.slack >= 0.0 && Spread(r) > GRACE
    ensures var s := Init(maxRequests, window, true);
            && Conforms(s, labels, r)
            && var s' := After(s, labels);
               var late := LateReading(s', Start(r) + r.ahead, r);
               Busy(s', late, 1, 0, 0) && Timely(s', late, r)
  {
    hide After, Runs, Ordered, AllPrompt, AllSynced, Bounded, InWindow, Busy, Next;
    var s := Init(maxRequests, window, true);
    var at := Start(r) + r.ahead;
    var first := Started(maxRequests, window, true, r);
    var s0 := After(s, first);
    BusyCheck(s0, at, 0, 0, 0);
    BusyFacts(s0, at, 0, 0, 0);
    SameLimits(s0, Check(0, at));
    var s1 := Next(s0, Check(0, at));
    BusyFacts(s1, at, 0, 0, 1);
    Snoc(s, first, Check(0, at), r);
    BusyRecord(s1, at, 0, 0, 1, 0);
    SameLimits(s1, Record(0));
    CanRecord(s1, 0);
    var s2 := Next(s1, Record(0));
    BusyFacts(s2, at, 0, 1, 0);
    Snoc(s, first + [Check(0, at)], Record(0), r);
    LateWindow(s2, at, 1, r);
    var silence := Tick(s2.window + GRACE);
    BusyFacts(Next(s2, silence), LateReading(Next(s2, silence), at, r), 1, 0, 0);
    labels := first + [Check(0, at)] + [Record(0)] + [silence];
    Snoc(s, first + [Check(0, at)] + [Record(0)], silence, r);
  }

  /** If readings spread over more than the grace period, a run in perfect order overfills a window by one. */
  lemma LateReadingsOverfill(maxRequests: int, window: real, r: Regime) returns (labels: seq<Label>, t: real)
    requires maxRequests >= 1 && window > 0.0 && r.inFlight >= 1 && r.slack >= 0.0 && Spread(r) > GRACE
    ensures var s := Init(maxRequests, window, true);
            Conforms(s, labels, r) && |InWindow(After(s, labels), t)| == maxRequests + r.inFlight
  {
    hide After, Runs, Ordered, AllPrompt, AllSynced, Bounded, InWindow, Busy;
    var s := Init(maxRequests, window, true);
    var first := OneThenSilence(maxRequests, window, r);
    var s1 := After(s, first);
    t := LateReading(s1, Start(r) + r.ahead, r);
    LimitsAreFixed(s, first);
    var rest := FillUp(s1, t, 1, 0, 0, r);
    labels := first + rest;
    Concatenated(s, first, rest, r);
    BusyFacts(After(s, labels), t, 1, maxRequests - 1, r.inFlight);
  }

  // ---------- Readings out of order ----------

  /** How much earlier than the purging check the overfilling one is. */
  function Disorder(window: real, r: Regime): real {
    var most := if r.slack < Spread(r) then r.slack else Spread(r);
    if window < most then window else most
  }

  /** A full window, one window length later: a check purges it all. */
  lemma PurgingCheck(s: Limiter, at: real, n: nat)
    requires Busy(s, at, 0, n, 0) && n > 0 && s.maxRequests >= 1
    ensures var s1 := Next(s, Tick(s.window));
            && s1 == s.(clock := s.clock + s.window)
            && Enabled(s1, Check(n, at + s.window))
            && var s2 := Next(s1, Check(n, at + s.window));
               && s2.zset == map[] && s2.pending == map[n := at + s.window]
               && s2.accepted == s.accepted[n := at + s.window] && s2.seen == s.seen + {n}
               && (s2.clock, s2.lastCheck) == (s1.clock, at + s.window)
               && (s2.window, s2.maxRequests) == (s.window, s.maxRequests)
  {
    hide InWindow, Busy, Next, Counted;
    WindowPasses(s, at, n);
    var s1 := s.(clock := s.clock + s.window);
    PurgedAll(s1, at);
    CheckOfEmpty(s1, n, at + s.window);
  }

  lemma PurgedAll(s: Limiter, at: real)
    requires at >= 0.0 && forall id :: id in s.zset ==> s.zset[id] == at
    ensures Counted(s, at + s.window) == map[]
  {
  }

  /** A check that counts nothing. */
  lemma CheckOfEmpty(s: Limiter, id: nat, now: real)
    requires Enabled(s, Check(id, now)) && Counted(s, now) == map[] && s.maxRequests >= 1
    ensures var s' := Next(s, Check(id, now));
            && s'.zset == map[] && s'.pending == s.pending[id := now]
            && s'.accepted == s.accepted[id := now] && s'.seen == s.seen + {id}
            && (s'.clock, s'.lastCheck, s'.window, s'.maxRequests) == (s.clock, now, s.window, s.maxRequests)
  {
    hide Counted;
  }

  /** One window length later nothing has expired. */
  lemma WindowPasses(s: Limiter, at: real, n: nat)
    requires Busy(s, at, 0, n, 0) && n > 0
    ensures Next(s, Tick(s.window)) == s.(clock := s.clock + s.window)
    ensures s.pending == map[] && s.window > 0.0 && at >= 0.0 && n !in s.seen
    ensures forall id :: id in s.zset ==> s.zset[id] == at
  {
    hide InWindow;
    assert s.zset != map[];
  }

  /** A reading that is earlier again still has the purged requests in its window. */
  lemma EarlierCheck(s: Limiter, s': Limiter, at: real, n: nat, now: real)
    requires Busy(s, at, 0, n, 0) && s'.window == s.window && at <= now < at + s.window
    requires forall id :: id in s.accepted ==> id in s'.accepted && s'.accepted[id] == s.accepted[id]
    requires n + 1 in s'.accepted && s'.accepted[n + 1] == now
    ensures |InWindow(s', now)| >= n + 1
  {
    assert n + 1 !in InWindow(s, at);
    SubsetSize(InWindow(s, at) + {n + 1}, InWindow(s', now));
  }

  lemma CheckAdmits(s: Limiter, id: nat, now: real)
    requires id !in s.seen && now >= 0.0 && |s.zset| < s.maxRequests
    ensures Enabled(s, Check(id, now))
    ensures var s' := Next(s, Check(id, now));
            s'.pending == s.pending[id := now] && s'.accepted == s.accepted[id := now] && s'.window == s.window
  {
    SubsetSize(Counted(s, now).Keys, s.zset.Keys);
  }

  /** After the purge, the purging request is recorded if nobody else may be between check and record. */
  lemma MakeRoom(s: Limiter, id: nat, at: real, r: Regime) returns (labels: seq<Label>)
    requires s.zset == map[] && s.pending == map[id := at] && r.inFlight >= 1
    requires s.maxRequests >= 1 && s.maxRequests + r.inFlight >= 3
    ensures Conforms(s, labels, r)
    ensures var s' := After(s, labels);
            && (s'.accepted, s'.seen, s'.clock, s'.lastCheck, s'.window, s'.maxRequests)
               == (s.accepted, s.seen, s.clock, s.lastCheck, s.window, s.maxRequests)
            && |s'.pending| < r.inFlight && |s'.zset| < s.maxRequests
  {
    if r.inFlight >= 2 {
      labels := [];
      NothingDone(s, r);
    } else {
      labels := [Record(id)];
      assert labels[1..] == [];
      var s' := Next(s, Record(id));
      assert s'.zset == map[id := at] && s'.pending == map[];
    }
  }

  /**
    If readings may be out of order, however little, and the quota and the requests between check and
    record are more than one each, a run overfills a window by one.
   */
  lemma DisorderOverfills(maxRequests: int, window: real, r: Regime) returns (labels: seq<Label>, t: real)
    requires maxRequests >= 1 && window > 0.0 && r.inFlight >= 1 && maxRequests + r.inFlight >= 3
    requires r.slack > 0.0 && Spread(r) > 0.0
    ensures var s := Init(maxRequests, window, true);
            Conforms(s, labels, r) && |InWindow(After(s, labels), t)| >= maxRequests + r.inFlight
  {
    hide After, Runs, Ordered, AllPrompt, AllSynced, Bounded, InWindow, Busy, Next;
    var s := Init(maxRequests, window, true);
    var at := Start(r) + r.ahead;
    var n := maxRequests + r.inFlight - 1;
    var full := FullWindow(maxRequests, window, r);
    var s0 := After(s, full);
    LimitsAreFixed(s, full);
    BusyFacts(s0, at, 0, n, 0);
    PurgingCheck(s0, at, n);
    var purge := Check(n, at + window);
    var s1 := Next(s0, Tick(window));
    Snoc(s, full, Tick(window), r);
    var s2 := Next(s1, purge);
    AddedTo(map[], n, at + window);
    Snoc(s, full + [Tick(window)], purge, r);
    var room := MakeRoom(s2, n, at + window, r);
    var before := full + [Tick(window)] + [purge];
    Concatenated(s, before, room, r);
    var s3 := After(s2, room);
    t := at + window - Disorder(window, r);
    var last := Check(n + 1, t);
    SeenIds(s0, at, n);
    CheckAdmits(s3, n + 1, t);
    GrowsByOne(s3.pending, n + 1, t);
    Snoc(s, before + room, last, r);
    EarlierCheck(s0, Next(s3, last), at, n, t);
    labels := before + room + [last];
  }

  lemma SeenIds(s: Limiter, at: real, n: nat)
    requires Busy(s, at, 0, n, 0)
    ensures n !in s.seen && n + 1 !in s.seen && n !in s.accepted && n + 1 !in s.accepted && at >= 0.0
  {
    hide InWindow;
  }

  lemma GrowsByOne(m: map<nat, real>, id: nat, x: real)
    ensures |m[id := x]| <= |m| + 1
  {
    assert m[id := x].Keys == m.Keys + {id};
    UnionSize(m.Keys, {id});
  }

  /** Quota and concurrency used up at one time, and everything recorded. */
  lemma FullWindow(maxRequests: int, window: real, r: Regime) returns (labels: seq<Label>)
    requires maxRequests >= 1 && window > 0.0 && r.inFlight >= 1 && r.slack >= 0.0 && Spread(r) >= 0.0
    ensures var s := Init(maxRequests, window, true);
            && Conforms(s, labels, r)
            && Busy(After(s, labels), Start(r) + r.ahead, 0, maxRequests + r.inFlight - 1, 0)
            && After(s, labels).clock == Start(r)
  {
    hide After, Runs, Ordered, AllPrompt, AllSynced, Bounded, InWindow, Busy;
    var s := Init(maxRequests, window, true);
    var at := Start(r) + r.ahead;
    var first := Started(maxRequests, window, true, r);
    var fill := FillUp(After(s, first), at, 0, 0, 0, r);
    Concatenated(s, first, fill, r);
    var record := RecordAll(After(s, first + fill), at, 0, maxRequests - 1, r.inFlight, r);
    Concatenated(s, first + fill, record, r);
    labels := first + fill + record;
  }

  // ---------- When nothing can go wrong ----------

  /** Readings that cannot spread are in order. */
  lemma {:induction false} NoSpreadNoDisorder(s: Limiter, labels: seq<Label>, r: Regime)
    requires Conforms(s, labels, r) && Spread(r) <= 0.0
    requires s.lastCheck <= 0.0 || s.lastCheck <= s.clock + r.ahead
    ensures Ordered(s, labels)
    decreases labels
  {
    if labels != [] {
      hide Conforms, Counted;
      ConformsStep(s, labels, r);
      NoSpreadNoDisorder(Next(s, labels[0]), labels[1..], r);
      NowInOrder(s, labels, r);
    }
  }

  lemma NowInOrder(s: Limiter, labels: seq<Label>, r: Regime)
    requires Conforms(s, labels, r) && Spread(r) <= 0.0 && labels != []
    requires s.lastCheck <= 0.0 || s.lastCheck <= s.clock + r.ahead
    requires Enabled(s, labels[0]) && Ordered(Next(s, labels[0]), labels[1..])
    ensures Ordered(s, labels)
  {
    hide Next;
  }

  /** Without a quota, or with nobody between check and record, nobody is ever accepted. */
  lemma {:induction false} NobodyIsAccepted(s: Limiter, labels: seq<Label>, r: Regime)
    requires Conforms(s, labels, r) && s.accepted == map[] && (s.maxRequests <= 0 || r.inFlight == 0)
    ensures After(s, labels).accepted == map[]
    decreases labels
  {
    if labels != [] {
      ConformsStep(s, labels, r);
      StillNobody(s, labels[0], r);
      SameLimits(s, labels[0]);
      hide Conforms, Next;
      NobodyIsAccepted(Next(s, labels[0]), labels[1..], r);
    }
  }

  lemma StillNobody(s: Limiter, l: Label, r: Regime)
    requires Enabled(s, l) && s.accepted == map[] && (s.maxRequests <= 0 || r.inFlight == 0)
    requires |Next(s, l).pending| <= r.inFlight
    ensures Next(s, l).accepted == map[]
  {
    hide Next, Enabled;
    if l.Check? && Allowed(s, l.now) {
      AcceptedIsPending(s, l.id, l.now);
    } else {
      OtherStepsAcceptNothing(s, l);
    }
  }

  lemma AcceptedIsPending(s: Limiter, id: nat, now: real)
    requires Enabled(s, Check(id, now)) && Allowed(s, now)
    ensures |Next(s, Check(id, now)).pending| >= 1
  {
    AcceptedCheck(s, id, now);
    SubsetSize({id}, Next(s, Check(id, now)).pending.Keys);
  }

  /** Any two accepted requests are at least a window apart. */
  predicate Spaced(s: Limiter) {
    forall i, j :: i in s.accepted && j in s.accepted && i != j ==>
      s.accepted[i] - s.accepted[j] >= s.window || s.accepted[j] - s.accepted[i] >= s.window
  }

  /** Every accepted request is at least a window older than any check still to come. */
  predicate Quiet(s: Limiter, ahead: real) {
    forall id :: id in s.accepted ==> s.accepted[id] <= s.clock - s.window - GRACE + ahead
  }

  /** `id` is the newest accepted request, and nothing else is recorded or pending. */
  predicate Holds(s: Limiter, id: nat) {
    && id in s.accepted
    && (forall i :: i in s.accepted ==> s.accepted[i] <= s.accepted[id])
    && ((s.zset == map[id := s.accepted[id]] && s.pending == map[])
        || (s.zset == map[] && s.pending == map[id := s.accepted[id]]))
  }

  /** A quota of one, served one at a time, in any order. */
  ghost predicate Alone(s: Limiter, ahead: real) {
    && Bookkeeping(s) && KeyLasts(s, ahead) && Spaced(s)
    && ((s.zset == map[] && s.pending == map[] && Quiet(s, ahead)) || exists id :: Holds(s, id))
  }

  lemma AloneAccepts(s: Limiter, id: nat, now: real, delay: real, ahead: real)
    requires Alone(s, ahead) && s.maxRequests == 1 && Enabled(s, Check(id, now)) && delay + ahead <= GRACE
    requires Prompt(s, Check(id, now), delay) && |Next(s, Check(id, now)).pending| <= 1 && Allowed(s, now)
    ensures Spaced(Next(s, Check(id, now))) && Holds(Next(s, Check(id, now)), id)
  {
    hide Next, KeyLasts;
    assert id !in s.accepted && id !in s.pending;
    assert Counted(s, now) == map[];
    CheckOfEmpty(s, id, now);
    OnlyOne(s.pending, id, now);
    AllOlder(s, now, delay, ahead);
    NewestIsApart(s, Next(s, Check(id, now)), id, now);
  }

  /** With nothing pending and nothing counted, every accepted request is at least a window older. */
  lemma AllOlder(s: Limiter, now: real, delay: real, ahead: real)
    requires Alone(s, ahead) && Counted(s, now) == map[] && s.pending == map[]
    requires s.clock - now <= delay && delay + ahead <= GRACE
    ensures forall i :: i in s.accepted ==> s.accepted[i] <= now - s.window
  {
    hide KeyLasts, Spaced;
    if s.zset != map[] {
      var i :| Holds(s, i);
      assert i in s.zset && i !in Counted(s, now);
    }
  }

  lemma NewestIsApart(s: Limiter, s': Limiter, id: nat, now: real)
    requires Spaced(s) && s.window > 0.0 && id !in s.accepted
    requires forall i :: i in s.accepted ==> s.accepted[i] <= now - s.window
    requires s'.accepted == s.accepted[id := now] && s'.window == s.window
    requires s'.zset == map[] && s'.pending == map[id := now]
    ensures Spaced(s') && Holds(s', id)
  {
  }

  lemma AloneRejects(s: Limiter, id: nat, now: real, ahead: real)
    requires Alone(s, ahead) && s.maxRequests == 1 && Enabled(s, Check(id, now)) && !Allowed(s, now)
    ensures var s' := Next(s, Check(id, now));
            && (s'.accepted, s'.window, s'.zset, s'.pending) == (s.accepted, s.window, s.zset, s.pending)
            && s.zset != map[]
  {
    hide KeyLasts, Spaced, Quiet;
    assert Counted(s, now) != map[];
    var j :| j in Counted(s, now);
    assert j in s.zset;
    var i :| Holds(s, i);
    assert Counted(s, now) == s.zset;
  }

  lemma AloneRecords(s: Limiter, id: nat, ahead: real)
    requires Alone(s, ahead) && id in s.pending
    ensures Spaced(Next(s, Record(id))) && Holds(Next(s, Record(id)), id)
  {
    hide KeyLasts, Quiet;
    var i :| Holds(s, i);
    assert i == id;
    assert Next(s, Record(id)).pending == map[];
  }

  lemma AloneWaits(s: Limiter, seconds: real, ahead: real)
    requires Alone(s, ahead) && seconds >= 0.0
    ensures var s' := Next(s, Tick(seconds));
            Spaced(s') && ((s'.zset == map[] && s'.pending == map[] && Quiet(s', ahead)) || exists id :: Holds(s', id))
  {
    hide Bookkeeping;
    var s' := Next(s, Tick(seconds));
    if !(s.zset == map[] && s.pending == map[] && Quiet(s, ahead)) {
      var i :| Holds(s, i);
      if s'.zset == s.zset {
        assert Holds(s', i);
      } else {
        assert i in s.zset && s.pending == map[];
        assert s.zset[i] + s.window + GRACE - ahead <= s.deadline.value <= s'.clock;
        assert Quiet(s', ahead);
      }
    }
  }

  lemma AloneIsKept(s: Limiter, l: Label, delay: real, ahead: real)
    requires Alone(s, ahead) && s.maxRequests == 1 && Enabled(s, l) && delay + ahead <= GRACE
    requires Prompt(s, l, delay) && Synced(s, l, ahead) && |Next(s, l).pending| <= 1
    ensures Alone(Next(s, l), ahead)
  {
    BookkeepingIsKept(s, l);
    KeyStillLasts(s, l, ahead);
    match l
    case Tick(seconds) => AloneWaits(s, seconds, ahead);
    case Record(id) => AloneRecords(s, id, ahead);
    case Check(id, now) =>
      if Allowed(s, now) {
        AloneAccepts(s, id, now, delay, ahead);
      } else {
        AloneRejects(s, id, now, ahead);
        hide Next, Bookkeeping, KeyLasts, Enabled, Prompt, Synced;
        var i :| Holds(s, i);
        assert Holds(Next(s, l), i);
      }
  }

  lemma {:induction false} AloneHolds(s: Limiter, labels: seq<Label>, r: Regime)
    requires Alone(s, r.ahead) && s.maxRequests == 1 && r.inFlight == 1 && Spread(r) <= GRACE && Conforms(s, labels, r)
    ensures Alone(After(s, labels), r.ahead)
    decreases labels
  {
    hide Alone, Ordered, AllPrompt, AllSynced, Bounded, Next, Enabled, InOrder, Prompt, Synced;
    if labels != [] {
      ConformsStep(s, labels, r);
      AloneIsKept(s, labels[0], r.delay, r.ahead);
      SameLimits(s, labels[0]);
      AloneHolds(Next(s, labels[0]), labels[1..], r);
    }
  }

  lemma SpacedWindow(s: Limiter, t: real)
    requires Spaced(s)
    ensures |InWindow(s, t)| <= 1
  {
    var w := InWindow(s, t);
    if w != {} {
      var i :| i in w;
      assert w == {i};
    }
  }

  lemma OnlyOne(m: map<nat, real>, id: nat, x: real)
    requires id !in m && |m[id := x]| <= 1
    ensures m == map[]
  {
    AddedTo(m, id, x);
  }

  // ---------- The exact condition ----------

  ghost predicate AlwaysBounded(maxRequests: int, window: real, r: Regime) {
    forall labels, t :: Conforms(Init(maxRequests, window, true), labels, r) ==>
      |InWindow(After(Init(maxRequests, window, true), labels), t)| <= Max(0, maxRequests + r.inFlight - 1)
  }

  /**
    The condition: nobody is admitted anyway; or clock readings spread by at most the grace period,
    and they are in order, or cannot help being so, or quota and concurrency are one.
   */
  predicate BoundIsSafe(maxRequests: int, r: Regime) {
    || maxRequests <= 0
    || r.inFlight == 0
    || (Spread(r) <= GRACE && (r.slack == 0.0 || Spread(r) <= 0.0 || maxRequests + r.inFlight <= 2))
  }

  lemma SafeRunIsBounded(maxRequests: int, window: real, labels: seq<Label>, r: Regime, t: real)
    requires window > 0.0 && r.slack >= 0.0 && BoundIsSafe(maxRequests, r)
    requires Conforms(Init(maxRequests, window, true), labels, r)
    ensures |InWindow(After(Init(maxRequests, window, true), labels), t)| <= Max(0, maxRequests + r.inFlight - 1)
  {
    hide After, Runs, Ordered, AllPrompt, AllSynced, Bounded, Sound, Alone;
    var s := Init(maxRequests, window, true);
    if maxRequests <= 0 || r.inFlight == 0 {
      NobodyIsAccepted(s, labels, r);
      assert InWindow(After(s, labels), t) == {};
    } else if r.slack == 0.0 || Spread(r) <= 0.0 {
      if Spread(r) <= 0.0 {
        NoSpreadNoDisorder(s, labels, r);
      }
      EveryWindowIsBounded(maxRequests, window, labels, r.inFlight, r.delay, r.ahead, t);
    } else {
      StartsAlone(maxRequests, window, r.ahead);
      AloneHolds(s, labels, r);
      AloneIsSpaced(After(s, labels), r.ahead);
      SpacedWindow(After(s, labels), t);
    }
  }

  lemma StartsAlone(maxRequests: int, window: real, ahead: real)
    requires window > 0.0
    ensures Alone(Init(maxRequests, window, true), ahead)
  {
  }

  lemma AloneIsSpaced(s: Limiter, ahead: real)
    requires Alone(s, ahead)
    ensures Spaced(s)
  {
  }

  /**
    For every quota, window and regime: no window of any run ever holds more than
    `maxRequests + inFlight - 1` accepted requests if and only if the condition holds.
   */
  lemma BoundHoldsIff(maxRequests: int, window: real, r: Regime)
    requires window > 0.0 && r.slack >= 0.0
    ensures AlwaysBounded(maxRequests, window, r) <==> BoundIsSafe(maxRequests, r)
  {
    hide Runs, Ordered, AllPrompt, AllSynced, Bounded, After, InWindow;
    var s := Init(maxRequests, window, true);
    if BoundIsSafe(maxRequests, r) {
      forall labels, t | Conforms(s, labels, r)
        ensures |InWindow(After(s, labels), t)| <= Max(0, maxRequests + r.inFlight - 1)
      {
        SafeRunIsBounded(maxRequests, window, labels, r, t);
      }
    } else if Spread(r) > GRACE {
      var labels, t := LateReadingsOverfill(maxRequests, window, r);
    } else {
      var labels, t := DisorderOverfills(maxRequests, window, r);
    }
  }

  // ---------- When expiry shows ----------

  /** In every run the same limiter without expiry accepts the same requests at the same times. */
  ghost predicate ExpiryNeverShows(maxRequests: int, window: real, r: Regime) {
    forall labels :: Conforms(Init(maxRequests, window, true), labels, r) ==>
      && Runs(Init(maxRequests, window, false), labels)
      && After(Init(maxRequests, window, true), labels).accepted
         == After(Init(maxRequests, window, false), labels).accepted
  }

  /**
    Once the quota is recorded and the key has expired, a late check is accepted that the limiter without
    expiry rejects.
   */
  lemma ExpiryShows(maxRequests: int, window: real, r: Regime) returns (labels: seq<Label>)
    requires maxRequests >= 1 && window > 0.0 && r.inFlight >= 1 && r.slack >= 0.0 && Spread(r) > GRACE
    ensures var (s, k) := (Init(maxRequests, window, true), Init(maxRequests, window, false));
            && Conforms(s, labels, r)
            && (Runs(k, labels) ==> After(s, labels).accepted != After(k, labels).accepted)
  {
    hide After, Runs, Ordered, AllPrompt, AllSynced, Bounded, InWindow, Busy, Next, Bookkeeping, SameDecisions;
    var (s, k) := (Init(maxRequests, window, true), Init(maxRequests, window, false));
    var q := Regime(1, -r.ahead, r.ahead, 0.0);
    var at := Start(r) + r.ahead;
    var full := FullWindow(maxRequests, window, q);
    Relaxed(s, full, q, r);
    LimitsAreFixed(s, full);
    var s1 := After(s, full);
    SameSoFar(maxRequests, window, full, q);
    LimitsAreFixed(k, full);
    var k1 := After(k, full);
    LateWindow(s1, at, maxRequests, r);
    BusyFacts(s1, at, 0, maxRequests, 0);
    var silence := Tick(window + GRACE);
    var s2 := Next(s1, silence);
    var late := LateReading(s2, at, r);
    BusyFacts(s2, late, maxRequests, 0, 0);
    Snoc(s, full, silence, r);
    SameLimits(s1, silence);
    BusyCheck(s2, late, maxRequests, 0, 0);
    var check := Check(maxRequests, late);
    BusyFacts(Next(s2, check), late, maxRequests, 0, 1);
    Snoc(s, full + [silence], check, r);
    labels := full + [silence] + [check];
    PendingIsAccepted(Next(s2, check), late, maxRequests, maxRequests);
    if Runs(k, labels) {
      assert labels == full + ([silence] + [check]);
      SplitRun(k, full, [silence] + [check]);
      TwoSteps(k1, silence, check);
      KeptKeyRejects(s1, k1, at, maxRequests, silence, check, r.ahead);
    }
  }

  lemma SameSoFar(maxRequests: int, window: real, labels: seq<Label>, q: Regime)
    requires window > 0.0 && Conforms(Init(maxRequests, window, true), labels, q) && Spread(q) <= GRACE
    ensures var (s, k) := (Init(maxRequests, window, true), Init(maxRequests, window, false));
            Runs(k, labels) && SameDecisions(After(s, labels), After(k, labels), q.ahead)
  {
    hide After, Runs, Ordered, AllPrompt, AllSynced, Bounded;
    NewLimiter(maxRequests, window, true, q.ahead);
    NewLimiter(maxRequests, window, false, q.ahead);
    ExpiryIsInvisibleFrom(Init(maxRequests, window, true), Init(maxRequests, window, false), labels, q.delay, q.ahead);
  }

  lemma {:induction false} SplitRun(s: Limiter, a: seq<Label>, b: seq<Label>)
    requires Runs(s, a + b)
    ensures Runs(s, a) && Runs(After(s, a), b) && After(s, a + b) == After(After(s, a), b)
    decreases a
  {
    hide Enabled, Next;
    if a == [] {
      assert a + b == b;
    } else {
      assert (a + b)[1..] == a[1..] + b;
      SplitRun(Next(s, a[0]), a[1..], b);
    }
  }

  lemma TwoSteps(s: Limiter, l: Label, m: Label)
    requires Runs(s, [l] + [m])
    ensures Enabled(s, l) && Enabled(Next(s, l), m) && After(s, [l] + [m]) == Next(Next(s, l), m)
  {
    hide Enabled, Next;
    assert ([l] + [m])[1..] == [m] && [m][1..] == [];
    assert After(Next(s, l), [m]) == After(Next(Next(s, l), m), []);
  }

  lemma PendingIsAccepted(s: Limiter, at: real, before: nat, id: nat)
    requires Busy(s, at, before, 0, 1) && id in s.pending
    ensures id in s.accepted
  {
    hide InWindow;
  }

  /** A key that is kept still holds the whole quota, so the late check is rejected. */
  lemma KeptKeyRejects(s: Limiter, k: Limiter, at: real, n: nat, silence: Label, check: Label, ahead: real)
    requires Busy(s, at, 0, n, 0) && SameDecisions(s, k, ahead) && n == k.maxRequests
    requires silence.Tick? && check.Check? && check.id == n && check.now - k.window < at
    requires Enabled(k, silence) && Enabled(Next(k, silence), check)
    ensures n !in Next(Next(k, silence), check).accepted
  {
    hide InWindow, Bookkeeping;
    SeenIds(s, at, n);
    var k1 := Next(k, silence);
    assert k1.zset == k.zset && k1.accepted == s.accepted;
    SubsetSize(s.zset.Keys, Counted(k1, check.now).Keys);
    OtherStepsAcceptNothing(k1, check);
  }

  /**
    The key's expiry never shows, in whatever order readings come, if and only if they spread by at most
    the grace period or nobody is admitted.
   */
  lemma ExpiryNeverShowsIff(maxRequests: int, window: real, r: Regime)
    requires window > 0.0 && r.slack >= 0.0
    ensures ExpiryNeverShows(maxRequests, window, r) <==> maxRequests <= 0 || r.inFlight == 0 || Spread(r) <= GRACE
  {
    hide After, Runs, Ordered, AllPrompt, AllSynced, Bounded;
    if maxRequests <= 0 || r.inFlight == 0 || Spread(r) <= GRACE {
      forall labels | Conforms(Init(maxRequests, window, true), labels, r)
        ensures Runs(Init(maxRequests, window, false), labels)
        ensures After(Init(maxRequests, window, true), labels).accepted
                == After(Init(maxRequests, window, false), labels).accepted
      {
        if Spread(r) <= GRACE {
          ExpiryIsInvisible(maxRequests, window, labels, r.delay, r.ahead);
        } else {
          NobodyEver(Init(maxRequests, window, true), Init(maxRequests, window, false), labels, r);
        }
      }
    } else {
      var labels := ExpiryShows(maxRequests, window, r);
    }
  }

  lemma {:induction false} NobodyEver(s: Limiter, k: Limiter, labels: seq<Label>, r: Regime)
    requires Conforms(s, labels, r) && (s.maxRequests <= 0 || r.inFlight == 0)
    requires s.accepted == k.accepted == map[] && s.zset == k.zset == map[] && s.pending == k.pending == map[]
    requires (s.maxRequests, s.window, s.seen) == (k.maxRequests, k.window, k.seen)
    ensures Runs(k, labels) && After(s, labels).accepted == After(k, labels).accepted
    decreases labels
  {
    if labels != [] {
      ConformsStep(s, labels, r);
      NobodyMore(s, k, labels[0], r);
      hide Conforms, Next, Enabled;
      NobodyEver(Next(s, labels[0]), Next(k, labels[0]), labels[1..], r);
    }
  }

  lemma NobodyMore(s: Limiter, k: Limiter, l: Label, r: Regime)
    requires Enabled(s, l) && |Next(s, l).pending| <= r.inFlight && (s.maxRequests <= 0 || r.inFlight == 0)
    requires s.accepted == k.accepted == map[] && s.zset == k.zset == map[] && s.pending == k.pending == map[]
    requires (s.maxRequests, s.window, s.seen) == (k.maxRequests, k.window, k.seen)
    ensures Enabled(k, l)
    ensures var (s', k') := (Next(s, l), Next(k, l));
            && s'.accepted == k'.accepted == map[] && s'.zset == k'.zset == map[] && s'.pending == k'.pending == map[]
            && (s'.maxRequests, s'.window, s'.seen) == (k'.maxRequests, k'.window, k'.seen)
            && s'.maxRequests == s.maxRequests
  {
    StillNobody(s, l, r);
    if l.Check? {
      assert Counted(s, l.now) == map[] && Counted(k, l.now) == map[];
    }
  }

  // ---------- Two small instances ----------

  /** A check that takes longer than the grace period can find the key gone and overfill its window. */
  lemma LateCheckOverfills()
    ensures var s0 := Init(1, 60.0, true);
            var s1 := Next(s0, Check(0, 0.0));
            var s2 := Next(s1, Record(0));
            var s3 := Next(s2, Tick(65.0));
            && Enabled(s3, Check(1, 59.0)) && !Prompt(s3, Check(1, 59.0), GRACE)
            && |InWindow(Next(s3, Check(1, 59.0)), 59.0)| == 2
  {
    var s0 := Init(1, 60.0, true);
    var s1 := Next(s0, Check(0, 0.0));
    assert Counted(s0, 0.0) == map[];
    var s3 := Next(Next(s1, Record(0)), Tick(65.0));
    assert Counted(s3, 59.0) == map[];
    assert InWindow(Next(s3, Check(1, 59.0)), 59.0) == {0, 1};
  }

  /** A limiter of quota two and 60 s that has recorded one request. */
  const RECORDED_ONE := Limiter(2, 60.0, true, 0.0, map[0 := 0.0], Some(65.0),
                                map[], map[0 := 0.0], {0}, 0.0)

  /** The same limiter a minute after a second request. */
  const MINUTE_LATER := Limiter(2, 60.0, true, 60.0, map[0 := 0.0, 1 := 0.0], Some(65.0),
                                map[], map[0 := 0.0, 1 := 0.0], {0, 1}, 0.0)

  /** And after a third request, whose check purged the first two. */
  const PURGED := Limiter(2, 60.0, true, 60.0, map[2 := 60.0], Some(125.0),
                          map[], map[0 := 0.0, 1 := 0.0, 2 := 60.0], {0, 1, 2}, 60.0)

  /** One request at a time and readings at most a second late and at most a second out of order. */
  const NEARLY_ORDERED := Regime(1, 1.0, 0.0, 1.0)

  /** A run that is out of order and ends with three accepted requests in a window. */
  predicate Overfills(s: Limiter, labels: seq<Label>) {
    Conforms(s, labels, NEARLY_ORDERED) && !Ordered(s, labels) && |InWindow(After(s, labels), 59.0)| == 3
  }

  lemma OverfillsBefore(s: Limiter, l: Label, rest: seq<Label>)
    requires Fits(s, l, NEARLY_ORDERED) && |s.pending| <= 1 && Overfills(Next(s, l), rest)
    ensures Overfills(s, [l] + rest)
  {
    hide AllPrompt, AllSynced, Bounded, Next, InWindow, Prompt, Synced;
    Prefixed(s, l, rest, NEARLY_ORDERED);
    assert ([l] + rest)[1..] == rest;
  }

  lemma FirstOfTwo(rest: seq<Label>)
    requires Overfills(RECORDED_ONE, rest)
    ensures Overfills(Init(2, 60.0, true), [Check(0, 0.0)] + ([Record(0)] + rest))
  {
    hide Overfills;
    var s := Init(2, 60.0, true);
    assert Counted(s, 0.0) == map[];
    var s1 := Next(s, Check(0, 0.0));
    assert s1.pending == map[0 := 0.0] && s1.zset == map[];
    assert Next(s1, Record(0)) == RECORDED_ONE;
    OverfillsBefore(s1, Record(0), rest);
    OverfillsBefore(s, Check(0, 0.0), [Record(0)] + rest);
  }

  lemma SecondOfTwo(rest: seq<Label>)
    requires Overfills(MINUTE_LATER, rest)
    ensures Overfills(RECORDED_ONE, [Check(1, 0.0)] + ([Record(1)] + ([Tick(60.0)] + rest)))
  {
    hide Overfills;
    var s := RECORDED_ONE;
    assert Counted(s, 0.0) == map[0 := 0.0];
    var s1 := Next(s, Check(1, 0.0));
    assert s1.pending == map[1 := 0.0] && s1.zset == map[0 := 0.0];
    var s2 := Next(s1, Record(1));
    assert s2.pending == map[];
    assert Next(s2, Tick(60.0)) == MINUTE_LATER;
    OverfillsBefore(s2, Tick(60.0), rest);
    OverfillsBefore(s1, Record(1), [Tick(60.0)] + rest);
    OverfillsBefore(s, Check(1, 0.0), [Record(1)] + ([Tick(60.0)] + rest));
  }

  lemma ThirdPurges(rest: seq<Label>)
    requires Overfills(PURGED, rest)
    ensures Overfills(MINUTE_LATER, [Check(2, 60.0)] + ([Record(2)] + rest))
  {
    hide Overfills;
    var s := MINUTE_LATER;
    assert Counted(s, 60.0) == map[];
    var s1 := Next(s, Check(2, 60.0));
    assert s1.pending == map[2 := 60.0] && s1.zset == map[];
    assert Next(s1, Record(2)) == PURGED;
    OverfillsBefore(s1, Record(2), rest);
    OverfillsBefore(s, Check(2, 60.0), [Record(2)] + rest);
  }

  lemma FourthOverfills()
    ensures Overfills(PURGED, [Check(3, 59.0)])
  {
    assert Counted(PURGED, 59.0) == map[2 := 60.0];
    var s := Next(PURGED, Check(3, 59.0));
    assert s.accepted == map[0 := 0.0, 1 := 0.0, 2 := 60.0, 3 := 59.0] && s.pending == map[3 := 59.0];
    FourInWindow(s);
    hide InWindow;
    assert [Check(3, 59.0)][1..] == [];
  }

  lemma FourInWindow(s: Limiter)
    requires s.window == 60.0 && s.accepted == map[0 := 0.0, 1 := 0.0, 2 := 60.0, 3 := 59.0]
    ensures |InWindow(s, 59.0)| == 3
  {
    assert InWindow(s, 59.0) == {0, 1, 3};
  }

  /**
    The order of the clock readings matters: requests of quota two served one at a time, all prompt,
    and yet three of them in one window, because the last one read its clock before the one that purged.
   */
  lemma OutOfOrderCheckOverfills()
    ensures var labels := [Check(0, 0.0), Record(0), Check(1, 0.0), Record(1), Tick(60.0),
                           Check(2, 60.0), Record(2), Check(3, 59.0)];
            var s := Init(2, 60.0, true);
            && Conforms(s, labels, NEARLY_ORDERED) && !Ordered(s, labels)
            && |InWindow(After(s, labels), 59.0)| == 3
  {
    hide Runs, AllPrompt, AllSynced, Bounded, Ordered, After, InWindow;
    var last := [Check(3, 59.0)];
    FourthOverfills();
    ThirdPurges(last);
    var third := [Check(2, 60.0)] + ([Record(2)] + last);
    SecondOfTwo(third);
    var second := [Check(1, 0.0)] + ([Record(1)] + ([Tick(60.0)] + third));
    FirstOfTwo(second);
    assert [Check(0, 0.0)] + ([Record(0)] + second)
           == [Check(0, 0.0), Record(0), Check(1, 0.0), Record(1), Tick(60.0),
               Check(2, 60.0), Record(2), Check(3, 59.0)];
  }
}
