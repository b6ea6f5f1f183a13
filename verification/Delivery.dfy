/**
  The worker, Redis, one WebSocket connection and the browser as a step system: every awaited Redis
  call, every frame filtered and every message received is one step, and steps interleave freely with
  the passing of time and with reconnections. Subscribing takes effect before the list is read, and the
  channel keeps order.

  `order` chooses between the worker's publish-then-append and the opposite order; a `faulty` Redis may
  raise in any call of the former.
 */
module Delivery {
  import opened Models
  import opened Streaming
  import opened WebSocketRelay
  import opened ExecutionStreamHook

  datatype Order = PublishFirst | AppendFirst

  /** The worker between its Redis calls for one frame: both effects, then the new time to live. */
  datatype Worker = Ready | Half(frame: Frame, fault: Fault) | Unrefreshed(fault: Fault)

  datatype Link =
    | Unsubscribed
    | Subscribed
    | Replaying(rest: seq<Frame>)
    | Live
    | Stopped           // by a live complete or error frame
    | Closed            // by the client or the network

  /** `joinedAt`, `low`, `high` and `taken` are histories: frames published before the subscription, the
      bounds of the snapshot, channel messages consumed. */
  datatype Conn = Conn(
    link: Link, inbox: seq<Frame>, relay: Relay, joinedAt: nat, low: nat, high: nat, taken: nat)

  const NEW_CONN := Conn(Unsubscribed, [], NEW_RELAY, 0, 0, 0, 0)

  /** `formatted` is the history of numbered frames and `faults` what went wrong with each; `channel` and
      `listed` are those that reached the channel and the list; the first `dropped` of the latter were lost
      with an expired list, and `buffer` is what the list holds. */
  datatype Net = Net(
    order: Order,
    ttl: real,
    faulty: bool,
    worker: Worker,
    formatted: seq<Frame>,
    faults: seq<Fault>,
    channel: seq<Frame>,
    listed: seq<Frame>,
    dropped: nat,
    buffer: seq<Frame>,
    deadline: Option<real>,
    refreshedAt: real,
    now: real,
    conn: Conn,
    client: Client,
    received: nat)

  function Init(order: Order, ttl: real, faulty: bool := false): Net {
    Net(order, ttl, faulty, Ready, [], [], [], [], 0, [], None, 0.0, 0.0, NEW_CONN, NEW_CLIENT, 0)
  }

  datatype Label =
    | Emit(chunk: Chunk, fault: Fault := NoFault)   // number a chunk and make the first Redis call
    | Second                 // make the other one
    | Refresh                // set the list's time to live
    | Tick(seconds: real)
    | Connect                // a new connection; the browser starts from nothing
    | Subscribe
    | Snapshot
    | ReplayOne
    | GoLive
    | Deliver
    | Receive                // the browser gets the next frame
    | Disconnect

  predicate Listening(c: Conn) {
    c.link.Subscribed? || c.link.Replaying? || c.link.Live?
  }

  predicate Enabled(s: Net, l: Label) {
    match l
    case Emit(_, fault) => s.worker == Ready && (fault != NoFault ==> s.faulty && s.order == PublishFirst)
    case Second => s.worker.Half?
    case Refresh => s.worker.Unrefreshed?
    case Tick(seconds) => seconds >= 0.0
    case Connect => true
    case Subscribe => s.conn.link == Unsubscribed
    case Snapshot => s.conn.link == Subscribed
    case ReplayOne => s.conn.link.Replaying? && s.conn.link.rest != []
    case GoLive => s.conn.link == Replaying([])
    case Deliver => s.conn.link == Live && s.conn.inbox != []
    case Receive => s.received < |s.conn.relay.sent|
    case Disconnect => true
  }

  function Publish(s: Net, f: Frame): Net {
    s.(channel := s.channel + [f], conn := if Listening(s.conn) then s.conn.(inbox := s.conn.inbox + [f]) else s.conn)
  }

  function Append(s: Net, f: Frame): Net {
    s.(listed := s.listed + [f], buffer := s.buffer + [f])
  }

  /** The worker numbers a chunk and makes its first call; an exception ends the publication. */
  function FirstCall(s: Net, f: Frame, fault: Fault): Net {
    var s1 := s.(formatted := s.formatted + [f], faults := s.faults + [fault],
                 worker := if fault.PublishRaises? then Ready else Half(f, fault));
    if s.order == AppendFirst then Append(s1, f)
    else if Sent(fault) then Publish(s1, f)
    else s1
  }

  function SecondCall(s: Net, f: Frame, fault: Fault): Net {
    var s1 := s.(worker := if fault.PushRaises? then Ready else Unrefreshed(fault));
    if s.order == AppendFirst then Publish(s1, f)
    else if Stored(fault) then Append(s1, f)
    else s1
  }

  /** Setting a time to live does nothing if the list is gone. */
  function ThirdCall(s: Net, fault: Fault): Net {
    if Refreshes(fault) && s.buffer != [] then
      s.(worker := Ready, deadline := Some(s.now + s.ttl), refreshedAt := s.now)
    else s.(worker := Ready)
  }

  function PassTime(s: Net, seconds: real): Net {
    var s1 := s.(now := s.now + seconds);
    if s.deadline.Some? && s1.now >= s.deadline.value then s1.(buffer := [], deadline := None, dropped := |s.listed|)
    else s1
  }

  function Follow(c: Conn): Conn
    requires c.inbox != []
  {
    c.(inbox := c.inbox[1..], taken := c.taken + 1, relay := Offer(c.relay, c.inbox[0]),
       link := if Stops(c.inbox[0]) then Stopped else c.link)
  }

  function Next(s: Net, l: Label): Net
    requires Enabled(s, l)
  {
    match l
    case Emit(chunk, fault) => FirstCall(s, Frame(|s.formatted|, chunk.event, chunk.data), fault)
    case Second => SecondCall(s, s.worker.frame, s.worker.fault)
    case Refresh => ThirdCall(s, s.worker.fault)
    case Tick(seconds) => PassTime(s, seconds)
    case Connect => s.(conn := NEW_CONN, client := NEW_CLIENT, received := 0)
    case Subscribe => s.(conn := s.conn.(link := Subscribed, joinedAt := |s.channel|))
    case Snapshot =>
      s.(conn := s.conn.(link := Replaying(LRange(s.buffer, 0, -1)), low := s.dropped, high := |s.listed|))
    case ReplayOne =>
      s.(conn := s.conn.(link := Replaying(s.conn.link.rest[1..]), relay := Offer(s.conn.relay, s.conn.link.rest[0])))
    case GoLive => s.(conn := s.conn.(link := Live))
    case Deliver => s.(conn := Follow(s.conn))
    case Receive => s.(client := OnMessage(s.client, s.conn.relay.sent[s.received]), received := s.received + 1)
    case Disconnect => s.(conn := s.conn.(link := Closed))
  }

  predicate Runs(s: Net, labels: seq<Label>)
    decreases labels
  {
    labels == [] || (Enabled(s, labels[0]) && Runs(Next(s, labels[0]), labels[1..]))
  }

  function After(s: Net, labels: seq<Label>): Net
    requires Runs(s, labels)
    decreases labels
  {
    if labels == [] then s else After(Next(s, labels[0]), labels[1..])
  }
}
