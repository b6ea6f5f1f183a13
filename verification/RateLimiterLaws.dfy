/**
  Bounds of the rate limiter over every interleaving of checks, records and the clock.
 */
module RateLimiterLaws {
  import opened Models
  import opened RateLimiting

  /** A check's reading is earlier than the one before it by at most `slack`. */
  predicate InOrder(s: Limiter, l: Label, slack: real := 0.0) {
    l.Check? ==> l.now >= s.lastCheck - slack
  }

  /** When a check reaches Redis, its reading is at most `delay` behind Redis' clock. */
  predicate Prompt(s: Limiter, l: Label, delay: real) {
    l.Check? ==> s.clock - l.now <= delay
  }

  /** And at most `ahead` ahead of it. */
  predicate Synced(s: Limiter, l: Label, ahead: real) {
    l.Check? ==> l.now - s.clock <= ahead
  }

  predicate Ordered(s: Limiter, labels: seq<Label>, slack: real := 0.0)
    requires Runs(s, labels)
    decreases labels
  {
    labels == [] || (InOrder(s, labels[0], slack) && Ordered(Next(s, labels[0]), labels[1..], slack))
  }

  predicate AllPrompt(s: Limiter, labels: seq<Label>, delay: real)
    requires Runs(s, labels)
    decreases labels
  {
    labels == [] || (Prompt(s, labels[0], delay) && AllPrompt(Next(s, labels[0]), labels[1..], delay))
  }

  predicate AllSynced(s: Limiter, labels: seq<Label>, ahead: real)
    requires Runs(s, labels)
    decreases labels
  {
    labels == [] || (Synced(s, labels[0], ahead) && AllSynced(Next(s, labels[0]), labels[1..], ahead))
  }

  /** Never more than `c` requests between check and record. */
  predicate Bounded(s: Limiter, labels: seq<Label>, c: nat)
    requires Runs(s, labels)
    decreases labels
  {
    |s.pending| <= c && (labels == [] || Bounded(Next(s, labels[0]), labels[1..], c))
  }

  /** Accepted requests with times in the half-open window that ends at `t`. */
  function InWindow(s: Limiter, t: real): set<nat> {
    set id | id in s.accepted && t - s.window < s.accepted[id] <= t
  }

  // ---------- What the key holds ----------

  /** Everything in the key or pending is accepted, with the same time. */
  predicate Bookkeeping(s: Limiter) {
    && s.window > 0.0
    && (forall id :: id in s.zset ==> id in s.accepted && s.accepted[id] == s.zset[id])
    && (forall id :: id in s.pending ==> id in s.accepted && s.accepted[id] == s.pending[id])
    && (forall id :: id in s.accepted ==> id in s.seen && 0.0 <= s.accepted[id])
  }

  predicate UpToLastCheck(s: Limiter) {
    forall id :: id in s.accepted ==> s.accepted[id] <= s.lastCheck
  }

  /** No time is more than `ahead` ahead of Redis' clock, and the key outlives its entries accordingly. */
  predicate KeyLasts(s: Limiter, ahead: real) {
    && (forall id :: id in s.accepted ==> s.accepted[id] <= s.clock + ahead)
    && (s.zset != map[] ==> s.deadline.Some?)
    && (forall id :: id in s.zset ==> s.zset[id] + s.window + GRACE - ahead <= s.deadline.value)
  }

  /** An accepted request is pending, in the key, or too old for any later prompt check. */
  predicate NothingForgotten(s: Limiter, ahead: real) {
    forall id :: id in s.accepted ==>
      || id in s.pending
      || id in s.zset
      || s.accepted[id] <= s.lastCheck - s.window
      || s.accepted[id] <= s.clock - s.window - GRACE + ahead
  }

  lemma BookkeepingIsKept(s: Limiter, l: Label)
    requires Bookkeeping(s) && Enabled(s, l)
    ensures Bookkeeping(Next(s, l))
    ensures UpToLastCheck(s) && InOrder(s, l) ==> UpToLastCheck(Next(s, l))
  {
  }

  lemma KeyStillLasts(s: Limiter, l: Label, ahead: real)
    requires Bookkeeping(s) && KeyLasts(s, ahead) && Enabled(s, l) && Synced(s, l, ahead)
    ensures KeyLasts(Next(s, l), ahead)
  {
  }

  lemma NothingIsForgotten(s: Limiter, l: Label, ahead: real)
    requires Bookkeeping(s) && KeyLasts(s, ahead) && NothingForgotten(s, ahead) && Enabled(s, l) && InOrder(s, l)
    ensures NothingForgotten(Next(s, l), ahead)
  {
    var s' := Next(s, l);
    if l.Tick? {
      assert forall id :: id in s.zset && id !in s'.zset ==> s.accepted[id] + s.window + GRACE - ahead <= s'.clock;
    }
  }

  /** What holds along an ordered run whose readings are at most `ahead` ahead. */
  predicate Sound(s: Limiter, ahead: real) {
    Bookkeeping(s) && UpToLastCheck(s) && KeyLasts(s, ahead) && NothingForgotten(s, ahead)
  }

  lemma SoundIsKept(s: Limiter, l: Label, ahead: real)
    requires Sound(s, ahead) && Enabled(s, l) && InOrder(s, l) && Synced(s, l, ahead)
    ensures Sound(Next(s, l), ahead)
  {
    hide Bookkeeping, UpToLastCheck, KeyLasts, NothingForgotten, Enabled, Next, InOrder, Synced;
    BookkeepingIsKept(s, l);
    KeyStillLasts(s, l, ahead);
    NothingIsForgotten(s, l, ahead);
  }

  // ---------- Safety ----------

  ghost predicate WithinBound(s: Limiter, c: nat) {
    forall t :: |InWindow(s, t)| <= Max(0, s.maxRequests + c - 1)
  }

  lemma SubsetSize(a: set<nat>, b: set<nat>)
    requires a <= b
    ensures |a| <= |b|
  {
    assert b == a + (b - a);
  }

  lemma UnionSize(a: set<nat>, b: set<nat>)
    ensures |a + b| <= |a| + |b|
  {
    assert a + b == a + (b - a);
    SubsetSize(b - a, b);
  }

  /** The accepted requests in the window of a prompt check are pending or counted by it. */
  lemma WindowIsKnown(s: Limiter, now: real, t: real, ahead: real)
    requires Sound(s, ahead)
    requires s.lastCheck <= now <= t && t - s.window < now && s.clock - now + ahead <= GRACE
    ensures |InWindow(s, t)| <= |s.pending| + |Counted(s, now)|
  {
    WindowIsCovered(s, now, t, ahead);
    hide InWindow, Counted, Sound;
    UnionSize(s.pending.Keys, Counted(s, now).Keys);
    SubsetSize(InWindow(s, t), s.pending.Keys + Counted(s, now).Keys);
  }

  lemma WindowIsCovered(s: Limiter, now: real, t: real, ahead: real)
    requires Sound(s, ahead)
    requires s.lastCheck <= now <= t && t - s.window < now && s.clock - now + ahead <= GRACE
    ensures InWindow(s, t) <= s.pending.Keys + Counted(s, now).Keys
  {
    forall id | id in InWindow(s, t)
      ensures id in s.pending || id in Counted(s, now)
    {
    }
  }

  lemma AcceptedCheck(s: Limiter, id: nat, now: real)
    requires Enabled(s, Check(id, now)) && Allowed(s, now)
    ensures var s' := Next(s, Check(id, now));
            && s'.accepted == s.accepted[id := now] && s'.pending == s.pending[id := now]
            && (s'.window, s'.maxRequests) == (s.window, s.maxRequests)
  {
    hide Counted;
  }

  lemma AcceptingStaysWithinBound(s: Limiter, id: nat, now: real, c: nat, ahead: real, t: real)
    requires Sound(s, ahead) && WithinBound(s, c)
    requires Enabled(s, Check(id, now)) && now >= s.lastCheck && s.clock - now + ahead <= GRACE
    requires Allowed(s, now) && |Next(s, Check(id, now)).pending| <= c
    ensures |InWindow(Next(s, Check(id, now)), t)| <= Max(0, s.maxRequests + c - 1)
  {
    hide Counted, Next, InWindow, NothingForgotten, KeyLasts, Bookkeeping, UpToLastCheck;
    var s' := Next(s, Check(id, now));
    AcceptedCheck(s, id, now);
    NewIsNotPending(s, id);
    WindowGrows(s, s', id, now, t);
    assert s'.pending.Keys == s.pending.Keys + {id};
    assert |s'.pending| == |s.pending| + 1;
    if t - s.window < now <= t {
      WindowIsKnown(s, now, t, ahead);
    }
  }

  lemma NewIsNotPending(s: Limiter, id: nat)
    requires Bookkeeping(s) && id !in s.seen
    ensures id !in s.pending && id !in s.accepted
  {
  }

  lemma WindowGrows(s: Limiter, s': Limiter, id: nat, now: real, t: real)
    requires id !in s.accepted && s'.accepted == s.accepted[id := now] && s'.window == s.window
    ensures |InWindow(s', t)| == |InWindow(s, t)| + (if t - s.window < now <= t then 1 else 0)
  {
    if t - s.window < now <= t {
      assert InWindow(s', t) == InWindow(s, t) + {id};
    } else {
      assert InWindow(s', t) == InWindow(s, t);
    }
  }

  lemma OtherStepsAcceptNothing(s: Limiter, l: Label)
    requires Enabled(s, l) && !(l.Check? && Allowed(s, l.now))
    ensures var s' := Next(s, l);
            s'.accepted == s.accepted && (s'.window, s'.maxRequests) == (s.window, s.maxRequests)
  {
    hide Counted;
  }

  lemma StepStaysWithinBound(s: Limiter, l: Label, c: nat, delay: real, ahead: real)
    requires Sound(s, ahead) && WithinBound(s, c) && delay + ahead <= GRACE
    requires Enabled(s, l) && InOrder(s, l) && Prompt(s, l, delay) && |Next(s, l).pending| <= c
    ensures WithinBound(Next(s, l), c)
  {
    hide Sound, Next, Enabled;
    var s' := Next(s, l);
    if l.Check? && Allowed(s, l.now) {
      AcceptedCheck(s, l.id, l.now);
      forall t
        ensures |InWindow(s', t)| <= Max(0, s.maxRequests + c - 1)
      {
        AcceptingStaysWithinBound(s, l.id, l.now, c, ahead, t);
      }
    } else {
      OtherStepsAcceptNothing(s, l);
      assert forall t :: InWindow(s', t) == InWindow(s, t);
    }
  }

  lemma {:induction false} RunStaysWithinBound(s: Limiter, labels: seq<Label>, c: nat, delay: real, ahead: real)
    requires Sound(s, ahead) && WithinBound(s, c) && delay + ahead <= GRACE
    requires Runs(s, labels) && Ordered(s, labels)
    requires AllPrompt(s, labels, delay) && AllSynced(s, labels, ahead) && Bounded(s, labels, c)
    ensures WithinBound(After(s, labels), c)
    decreases labels
  {
    hide Sound, WithinBound, Enabled, Next, InOrder, Prompt, Synced;
    if labels != [] {
      var l := labels[0];
      assert Bounded(Next(s, l), labels[1..], c);
      StepStaysWithinBound(s, l, c, delay, ahead);
      SoundIsKept(s, l, ahead);
      RunStaysWithinBound(Next(s, l), labels[1..], c, delay, ahead);
    }
  }

  lemma NewLimiter(maxRequests: int, window: real, expires: bool, ahead: real)
    requires window > 0.0
    ensures var s := Init(maxRequests, window, expires);
            Sound(s, ahead) && forall c: nat :: WithinBound(s, c)
  {
    var s := Init(maxRequests, window, expires);
    assert forall t :: InWindow(s, t) == {};
  }

  /**
    With at most `c` requests at once between check and record, clock readings in order, and readings
    that stay within a band of 5 s around Redis' clock, no window of the configured length, wherever it
    ends, contains more than `maxRequests + c - 1` accepted requests; so exactly the quota when
    requests are served one at a time.
   */
  lemma EveryWindowIsBounded(
    maxRequests: int, window: real, labels: seq<Label>, c: nat, delay: real, ahead: real, t: real)
    requires window > 0.0 && delay + ahead <= GRACE
    requires var s := Init(maxRequests, window, true);
             && Runs(s, labels) && Ordered(s, labels)
             && AllPrompt(s, labels, delay) && AllSynced(s, labels, ahead) && Bounded(s, labels, c)
    ensures |InWindow(After(Init(maxRequests, window, true), labels), t)| <= Max(0, maxRequests + c - 1)
  {
    hide After, Runs, Ordered, AllPrompt, AllSynced, Bounded, InWindow, Sound;
    NewLimiter(maxRequests, window, true, ahead);
    RunStaysWithinBound(Init(maxRequests, window, true), labels, c, delay, ahead);
    LimitsAreFixed(Init(maxRequests, window, true), labels);
  }

  lemma {:induction false} LimitsAreFixed(s: Limiter, labels: seq<Label>)
    requires Runs(s, labels)
    ensures var s' := After(s, labels);
            (s'.maxRequests, s'.window, s'.expires) == (s.maxRequests, s.window, s.expires)
    decreases labels
  {
    hide Counted;
    if labels != [] {
      LimitsAreFixed(Next(s, labels[0]), labels[1..]);
    }
  }

  // ---------- Exactness ----------

  lemma {:induction false} RunKeepsBooks(s: Limiter, labels: seq<Label>)
    requires Bookkeeping(s) && UpToLastCheck(s) && Runs(s, labels) && Ordered(s, labels)
    ensures Bookkeeping(After(s, labels)) && UpToLastCheck(After(s, labels))
    decreases labels
  {
    hide Bookkeeping, UpToLastCheck, Enabled, Next, InOrder;
    if labels != [] {
      BookkeepingIsKept(s, labels[0]);
      RunKeepsBooks(Next(s, labels[0]), labels[1..]);
    }
  }

  lemma {:induction false} RunStaysSound(s: Limiter, labels: seq<Label>, ahead: real)
    requires Sound(s, ahead) && Runs(s, labels) && Ordered(s, labels) && AllSynced(s, labels, ahead)
    ensures Sound(After(s, labels), ahead)
    decreases labels
  {
    hide Sound, Enabled, Next, InOrder, Synced;
    if labels != [] {
      SoundIsKept(s, labels[0], ahead);
      RunStaysSound(Next(s, labels[0]), labels[1..], ahead);
    }
  }

  /**
    A rejection means that the window ending at the check already holds `maxRequests` accepted
    requests; and for a prompt check with nothing pending it is rejected exactly then.
   */
  lemma RejectedOnlyWhenFull(maxRequests: int, window: real, labels: seq<Label>, ahead: real, now: real)
    requires window > 0.0
    requires Runs(Init(maxRequests, window, true), labels) && Ordered(Init(maxRequests, window, true), labels)
    requires After(Init(maxRequests, window, true), labels).lastCheck <= now
    ensures var s := After(Init(maxRequests, window, true), labels);
            && (!Allowed(s, now) ==> |InWindow(s, now)| >= maxRequests)
            && (AllSynced(Init(maxRequests, window, true), labels, ahead)
                && s.pending == map[] && s.clock - now + ahead <= GRACE ==>
                  (Allowed(s, now) <==> |InWindow(s, now)| < maxRequests))
  {
    hide After, Runs, Ordered, AllSynced;
    NewLimiter(maxRequests, window, true, ahead);
    RunKeepsBooks(Init(maxRequests, window, true), labels);
    LimitsAreFixed(Init(maxRequests, window, true), labels);
    var s := After(Init(maxRequests, window, true), labels);
    CountedAreInWindow(s, now);
    if && AllSynced(Init(maxRequests, window, true), labels, ahead)
       && s.pending == map[] && s.clock - now + ahead <= GRACE {
      RunStaysSound(Init(maxRequests, window, true), labels, ahead);
      WindowIsKnown(s, now, now, ahead);
    }
  }

  lemma CountedAreInWindow(s: Limiter, now: real)
    requires Bookkeeping(s) && UpToLastCheck(s) && s.lastCheck <= now
    ensures |Counted(s, now)| <= |InWindow(s, now)|
  {
    SubsetSize(Counted(s, now).Keys, InWindow(s, now));
  }

  predicate NoRecords(labels: seq<Label>) {
    forall l :: l in labels ==> !l.Record?
  }

  lemma {:induction false} KeyOnlyShrinks(s: Limiter, labels: seq<Label>)
    requires Runs(s, labels) && NoRecords(labels)
    ensures forall id :: id in After(s, labels).zset ==> id in s.zset && After(s, labels).zset[id] == s.zset[id]
    decreases labels
  {
    if labels != [] {
      var (l, rest) := (labels[0], labels[1..]);
      assert labels == [l] + rest;
      KeyOnlyShrinks(Next(s, l), rest);
    }
  }

  /**
    A client that was rejected at `now` and comes back after the advertised window, with no request
    recorded in between, is accepted, provided that the limit lets anybody in at all.
   */
  lemma RetryAfterIsHonest(maxRequests: int, window: real, before: seq<Label>, id: nat, now: real,
                           waiting: seq<Label>, later: real)
    requires window > 0.0
    requires Runs(Init(maxRequests, window, true), before) && Ordered(Init(maxRequests, window, true), before)
    requires var s := After(Init(maxRequests, window, true), before);
             && Enabled(s, Check(id, now)) && s.lastCheck <= now && !Allowed(s, now)
             && Runs(Next(s, Check(id, now)), waiting) && NoRecords(waiting)
    requires later >= now + window
    ensures var s := After(Next(After(Init(maxRequests, window, true), before), Check(id, now)), waiting);
            Allowed(s, later) <==> maxRequests >= 1
  {
    hide After, Runs, Ordered, Enabled;
    NewLimiter(maxRequests, window, true, 0.0);
    RunKeepsBooks(Init(maxRequests, window, true), before);
    LimitsAreFixed(Init(maxRequests, window, true), before);
    var s := Next(After(Init(maxRequests, window, true), before), Check(id, now));
    LimitsAreFixed(s, waiting);
    KeyOnlyShrinks(s, waiting);
    assert Counted(After(s, waiting), later) == map[];
  }

  // ---------- The key's time to live ----------

  /** The same limiter with and without expiry: the keys differ only in entries too old for a prompt check. */
  predicate SameDecisions(s: Limiter, k: Limiter, ahead: real) {
    && s.expires && !k.expires
    && (s.maxRequests, s.window, s.clock, s.pending, s.accepted, s.seen, s.lastCheck)
       == (k.maxRequests, k.window, k.clock, k.pending, k.accepted, k.seen, k.lastCheck)
    && (forall id :: id in s.zset ==> id in k.zset && k.zset[id] == s.zset[id])
    && (forall id :: id in k.zset && id !in s.zset ==> k.zset[id] <= s.clock - s.window - GRACE + ahead)
  }

  lemma SameStep(s: Limiter, k: Limiter, l: Label, delay: real, ahead: real)
    requires Bookkeeping(s) && Bookkeeping(k) && KeyLasts(s, ahead) && SameDecisions(s, k, ahead)
    requires Enabled(s, l) && Prompt(s, l, delay) && delay + ahead <= GRACE
    ensures Enabled(k, l) && SameDecisions(Next(s, l), Next(k, l), ahead)
  {
    if l.Check? {
      SameCheck(s, k, l.id, l.now, delay, ahead);
    }
  }

  lemma SameCheck(s: Limiter, k: Limiter, id: nat, now: real, delay: real, ahead: real)
    requires Bookkeeping(k) && SameDecisions(s, k, ahead) && Enabled(s, Check(id, now))
    requires Prompt(s, Check(id, now), delay) && delay + ahead <= GRACE
    ensures Enabled(k, Check(id, now)) && SameDecisions(Next(s, Check(id, now)), Next(k, Check(id, now)), ahead)
  {
    assert Counted(s, now) == Counted(k, now);
  }

  lemma {:induction false} ExpiryIsInvisibleFrom(s: Limiter, k: Limiter, labels: seq<Label>, delay: real, ahead: real)
    requires Bookkeeping(s) && Bookkeeping(k) && KeyLasts(s, ahead) && SameDecisions(s, k, ahead)
    requires Runs(s, labels) && AllPrompt(s, labels, delay) && AllSynced(s, labels, ahead) && delay + ahead <= GRACE
    ensures Runs(k, labels) && SameDecisions(After(s, labels), After(k, labels), ahead)
    decreases labels
  {
    hide Bookkeeping, KeyLasts, SameDecisions, Enabled, Next, Synced, Prompt;
    if labels != [] {
      SameStep(s, k, labels[0], delay, ahead);
      BookkeepingIsKept(s, labels[0]);
      BookkeepingIsKept(k, labels[0]);
      KeyStillLasts(s, labels[0], ahead);
      ExpiryIsInvisibleFrom(Next(s, labels[0]), Next(k, labels[0]), labels[1..], delay, ahead);
    }
  }

  /**
    If readings stay within a band of 5 s around Redis' clock, in whatever order, the key's time to live
    never changes a decision.
   */
  lemma ExpiryIsInvisible(maxRequests: int, window: real, labels: seq<Label>, delay: real, ahead: real)
    requires window > 0.0 && delay + ahead <= GRACE
    requires var s := Init(maxRequests, window, true);
             Runs(s, labels) && AllPrompt(s, labels, delay) && AllSynced(s, labels, ahead)
    ensures Runs(Init(maxRequests, window, false), labels)
    ensures After(Init(maxRequests, window, true), labels).accepted
            == After(Init(maxRequests, window, false), labels).accepted
  {
    hide After, Runs, AllPrompt, AllSynced;
    NewLimiter(maxRequests, window, true, ahead);
    NewLimiter(maxRequests, window, false, ahead);
    ExpiryIsInvisibleFrom(Init(maxRequests, window, true), Init(maxRequests, window, false), labels, delay, ahead);
  }
}
