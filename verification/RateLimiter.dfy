/**
  The sliding-window rate limiter of one client key: a Redis sorted set of request times. A request is
  checked in one Redis transaction and recorded in a second one, and other requests run in between.
 */
module RateLimiting {
  import opened Models

  /** Seconds by which the key outlives the window. */
  const GRACE := 5.0

  /**
    `clock` is the clock of Redis, which expires keys; the times of requests are readings of the
    backends' own clocks, behind or ahead of it. `zset` maps request ids to their times. `pending` are
    the requests between check and record; `accepted`, `seen` and `lastCheck` are histories. `expires`
    is false for a key that is kept forever.
   */
  datatype Limiter = Limiter(
    maxRequests: int,
    window: real,
    expires: bool,
    clock: real,
    zset: map<nat, real>,
    deadline: Option<real>,
    pending: map<nat, real>,
    accepted: map<nat, real>,
    seen: set<nat>,
    lastCheck: real)

  function Init(maxRequests: int, window: real, expires: bool): Limiter {
    Limiter(maxRequests, window, expires, 0.0, map[], None, map[], map[], {}, 0.0)
  }

  datatype Label =
    | Tick(seconds: real)
    | Check(id: nat, now: real)    // `now` was read on the backend's clock; ids are unique
    | Record(id: nat)

  predicate Enabled(s: Limiter, l: Label) {
    match l
    case Tick(seconds) => seconds >= 0.0
    case Check(id, now) => id !in s.seen && now >= 0.0
    case Record(id) => id in s.pending
  }

  /** ZREMRANGEBYSCORE from 0 to `edge`. */
  function Purged(zset: map<nat, real>, edge: real): map<nat, real> {
    map id | id in zset && !(0.0 <= zset[id] <= edge) :: zset[id]
  }

  /** The entries a check at `now` counts. */
  function Counted(s: Limiter, now: real): map<nat, real> {
    Purged(s.zset, now - s.window)
  }

  predicate Allowed(s: Limiter, now: real) {
    |Counted(s, now)| < s.maxRequests
  }

  function Next(s: Limiter, l: Label): Limiter
    requires Enabled(s, l)
  {
    match l
    case Tick(seconds) =>
      var clock := s.clock + seconds;
      if s.expires && s.deadline.Some? && clock >= s.deadline.value then
        s.(clock := clock, zset := map[], deadline := None)
      else s.(clock := clock)
    case Check(id, now) =>
      var kept := Counted(s, now);
      var s1 := s.(zset := kept, deadline := if kept == map[] then None else s.deadline,
                   seen := s.seen + {id}, lastCheck := now);
      if |kept| >= s.maxRequests then s1
      else s1.(pending := s.pending[id := now], accepted := s.accepted[id := now])
    case Record(id) =>
      s.(zset := s.zset[id := s.pending[id]], pending := s.pending - {id},
         deadline := Some(s.clock + s.window + GRACE))
  }

  predicate Runs(s: Limiter, labels: seq<Label>)
    decreases labels
  {
    labels == [] || (Enabled(s, labels[0]) && Runs(Next(s, labels[0]), labels[1..]))
  }

  function After(s: Limiter, labels: seq<Label>): Limiter
    requires Runs(s, labels)
    decreases labels
  {
    if labels == [] then s else After(Next(s, labels[0]), labels[1..])
  }

  /** The limiter dependency together with its Redis key. */
  class RateLimiter {
    const maxRequests: int
    const windowSeconds: real
    var clock: real
    var zset: map<nat, real>
    var deadline: Option<real>
    ghost var pending: map<nat, real>
    ghost var accepted: map<nat, real>
    ghost var seen: set<nat>
    ghost var lastCheck: real

    ghost function State(): Limiter
      reads this
    {
      Limiter(maxRequests, windowSeconds, true, clock, zset, deadline, pending, accepted, seen, lastCheck)
    }

    constructor (maxRequests: int := 15, windowSeconds: real := 60.0)
      ensures State() == Init(maxRequests, windowSeconds, true)
    {
      this.maxRequests, this.windowSeconds := maxRequests, windowSeconds;
      clock, zset, deadline := 0.0, map[], None;
      pending, accepted, seen, lastCheck := map[], map[], {}, 0.0;
    }

    method PassTime(seconds: real)
      requires seconds >= 0.0
      modifies this
      ensures State() == Next(old(State()), Tick(seconds))
    {
      clock := clock + seconds;
      if deadline.Some? && clock >= deadline.value {
        zset, deadline := map[], None;
      }
    }

    /** The first transaction; a false result is the 429 response with its Retry-After header. */
    method CheckRequest(id: nat, now: real) returns (allowed: bool)
      requires Enabled(State(), Check(id, now))
      modifies this
      ensures State() == Next(old(State()), Check(id, now))
      ensures allowed == Allowed(old(State()), now)
    {
      var windowStart := now - windowSeconds;
      zset := map m | m in zset && !(0.0 <= zset[m] <= windowStart) :: zset[m];
      if zset == map[] {
        deadline := None;
      }
      allowed := |zset| < maxRequests;
      seen, lastCheck := seen + {id}, now;
      if allowed {
        pending, accepted := pending[id := now], accepted[id := now];
      }
    }

    /** The second transaction. */
    method RecordRequest(id: nat, now: real)
      requires id in pending && pending[id] == now
      modifies this
      ensures State() == Next(old(State()), Record(id))
    {
      zset := zset[id := now];
      deadline := Some(clock + windowSeconds + GRACE);
      pending := pending - {id};
    }
  }
}
