/**
  The subprocess sandbox's chunk generator as a step system. One step is one stretch of code between
  two suspension points: two pumps read the program's streams into a shared byte-capped consumer and
  an unbounded queue, the generator drains the queue against a deadline, and steps interleave freely.
  Putting into an unbounded queue never suspends, so a pump's read, consume and put are one step.
  `Next` specifies every step; the class performs the steps on its fields.
 */
module ProcessSandboxes {
  import opened Models
  import opened StreamConsumers
  import opened StreamConsumerLaws

  datatype Phase =
    | Preparing                              // nothing yielded yet
    | Compiling                              // the compiler runs
    | Launching                              // ready to start the program
    | Draining                               // the queue loop
    | Settling(timedOut: bool)               // the queue loop has ended
    | Reporting(outcome: ExecutionStatus)    // an error chunk is out, the final chunk is not
    | Done(status: ExecutionStatus)

  /** The state of one run. `inputs`, `log`, `taken` and `head` are histories used to state properties. */
  datatype Run = Run(
    timeout: real,
    phase: Phase,
    consumer: ConsumerState,
    queue: seq<Option<Chunk>>,
    pumping: bool,          // the pumps have been started
    stdoutEnded: bool,
    stderrEnded: bool,
    pumpsDone: nat,
    events: seq<Chunk>,     // every chunk yielded
    now: real,              // seconds since the generator started
    launchedAt: real,
    idle: real,             // seconds since the launch spent outside queue waits
    iterations: nat,        // rounds of the queue loop
    inputs: seq<Read>,      // every piece handed to the consumer
    log: seq<Chunk>,        // every chunk put into the queue
    taken: nat,             // how many of them the generator has yielded
    head: seq<Chunk>)       // the status chunks

  function Init(maxBytes: int, timeout: real): Run {
    Run(timeout, Preparing, Fresh(maxBytes), [], false, false, false, 0, [], 0.0, 0.0, 0.0, 0, [], [], 0, [])
  }

  datatype Label =
    | SkipCompile(notice: string)
    | StartCompile(notice: string)
    | CompileOk(notice: string)
    | CompileFails(message: string)
    | Launch
    | PumpReads(input: Read)
    | PumpEnds(fromStderr: bool)             // end of stream, read error or cancellation
    | Take(waited: real)
    | TimeOut(notice: string)
    | Finish(exitCode: Option<int>, report: string)
    | Raise(message: string)                 // an exception inside the generator's try block
    | Report(report: string)
    | Idle(seconds: real)                    // time passes outside queue waits

  /** How long the next queue wait may last. */
  function Remaining(s: Run): real {
    MaxReal(0.01, s.timeout - s.now)
  }

  predicate Ended(s: Run, fromStderr: bool) {
    if fromStderr then s.stderrEnded else s.stdoutEnded
  }

  predicate Enabled(s: Run, l: Label) {
    match l
    case SkipCompile(_) => s.phase == Preparing
    case StartCompile(_) => s.phase == Preparing
    case CompileOk(_) => s.phase == Compiling
    case CompileFails(_) => s.phase == Compiling
    case Launch => s.phase == Launching
    case PumpReads(input) => s.pumping && !Ended(s, input.fromStderr) && input.text != ""
    case PumpEnds(fromStderr) => s.pumping && !Ended(s, fromStderr)
    case Take(waited) => s.phase == Draining && s.queue != [] && 0.0 <= waited <= Remaining(s)
    case TimeOut(_) => s.phase == Draining
    case Finish(_, _) => s.phase.Settling?
    case Raise(_) => !s.phase.Reporting? && !s.phase.Done?
    case Report(_) => s.phase.Reporting?
    case Idle(seconds) => seconds >= 0.0
  }

  /** The `finally` of a pump: the second pump to get there puts the sentinel. */
  function EndPump(s: Run, fromStderr: bool): Run {
    s.(stdoutEnded := s.stdoutEnded || !fromStderr,
       stderrEnded := s.stderrEnded || fromStderr,
       pumpsDone := s.pumpsDone + 1,
       queue := if s.pumpsDone + 1 >= 2 then s.queue + [None] else s.queue)
  }

  function Queued(o: Option<Chunk>): seq<Option<Chunk>> {
    if o.Some? then [o] else []
  }

  function ReadPiece(s: Run, input: Read): Run {
    var (c, o) := Consume(s.consumer, input);
    var s1 := s.(consumer := c, queue := s.queue + Queued(o), inputs := s.inputs + [input], log := s.log + Emitted(o));
    if c.limitExceeded then EndPump(s1, input.fromStderr) else s1
  }

  function Dequeued(s: Run, waited: real): Run
    requires s.queue != []
  {
    s.(now := s.now + waited, iterations := s.iterations + 1, queue := s.queue[1..])
  }

  function TakeItem(s: Run, waited: real): Run
    requires s.queue != []
  {
    var s1 := Dequeued(s, waited);
    match s.queue[0]
    case None => s1.(phase := Settling(false))
    case Some(chunk) => s1.(events := s.events + [chunk], taken := s.taken + 1)
  }

  function FinalStatus(s: Run, timedOut: bool, exitCode: Option<int>): ExecutionStatus {
    if timedOut then TimeLimitExceeded
    else if s.consumer.limitExceeded then OutputLimitExceeded
    else if exitCode == Some(0) then Completed
    else RuntimeError
  }

  function Yield(s: Run, event: Event, data: string, phase: Phase): Run {
    s.(events := s.events + [Chunk(event, data)], phase := phase,
       head := if event == Status then s.head + [Chunk(event, data)] else s.head)
  }

  function Next(s: Run, l: Label): Run
    requires Enabled(s, l)
  {
    match l
    case SkipCompile(notice) => Yield(s, Status, notice, Launching)
    case StartCompile(notice) => Yield(s, Status, notice, Compiling)
    case CompileOk(notice) => Yield(s, Status, notice, Launching)
    case CompileFails(message) => Yield(s, Error, message, Reporting(CompileError))
    case Launch => s.(phase := Draining, pumping := true, launchedAt := s.now, idle := 0.0)
    case PumpReads(input) => ReadPiece(s, input)
    case PumpEnds(fromStderr) => EndPump(s, fromStderr)
    case Take(waited) => TakeItem(s, waited)
    case TimeOut(notice) =>
      Yield(s, Error, notice, Settling(true)).(now := s.now + Remaining(s), iterations := s.iterations + 1)
    case Finish(exitCode, report) => Yield(s, Complete, report, Done(FinalStatus(s, s.phase.timedOut, exitCode)))
    case Raise(message) => Yield(s, Error, message, Reporting(SystemError))
    case Report(report) => Yield(s, Complete, report, Done(s.phase.outcome))
    case Idle(seconds) => s.(now := s.now + seconds, idle := s.idle + seconds)
  }

  /** `labels` can be performed one after the other from `s`. */
  predicate Runs(s: Run, labels: seq<Label>)
    decreases labels
  {
    labels == [] || (Enabled(s, labels[0]) && Runs(Next(s, labels[0]), labels[1..]))
  }

  function After(s: Run, labels: seq<Label>): Run
    requires Runs(s, labels)
    decreases labels
  {
    if labels == [] then s else After(Next(s, labels[0]), labels[1..])
  }

  /** The generator's local variables and its two pump tasks. */
  class StreamExecution {
    const timeout: real
    const consumer: StreamConsumer
    var phase: Phase
    var chunkQueue: seq<Option<Chunk>>
    var pumping: bool
    var stdoutEnded: bool
    var stderrEnded: bool
    var pumpsDone: nat
    var events: seq<Chunk>
    var now: real
    ghost var launchedAt: real
    ghost var idle: real
    ghost var iterations: nat
    ghost var inputs: seq<Read>
    ghost var log: seq<Chunk>
    ghost var taken: nat
    ghost var head: seq<Chunk>

    ghost function State(): Run
      reads this, consumer
    {
      Run(timeout, phase, consumer.State(), chunkQueue, pumping, stdoutEnded, stderrEnded, pumpsDone, events,
          now, launchedAt, idle, iterations, inputs, log, taken, head)
    }

    constructor (maxOutputBytes: int, timeout: real)
      ensures State() == Init(maxOutputBytes, timeout) && fresh(consumer)
    {
      var c := new StreamConsumer(maxOutputBytes);
      this.timeout, consumer := timeout, c;
      phase, chunkQueue, events := Preparing, [], [];
      pumping, stdoutEnded, stderrEnded, pumpsDone := false, false, false, 0;
      now, launchedAt, idle, iterations := 0.0, 0.0, 0.0, 0;
      inputs, log, taken, head := [], [], 0, [];
    }

    /** Yields one chunk made by the generator itself and moves to `next`. */
    method YieldOwn(event: Event, data: string, next: Phase)
      modifies this
      ensures State() == Yield(old(State()), event, data, next)
    {
      events := events + [Chunk(event, data)];
      phase := next;
      if event == Status {
        head := head + [Chunk(event, data)];
      }
    }

    method Prepare(compiled: bool, notice: string)
      requires phase == Preparing
      modifies this
      ensures State() == Next(old(State()), if compiled then StartCompile(notice) else SkipCompile(notice))
    {
      if compiled {
        YieldOwn(Status, notice, Compiling);
      } else {
        YieldOwn(Status, notice, Launching);
      }
    }

    method FinishCompiling(ok: bool, text: string)
      requires phase == Compiling
      modifies this
      ensures State() == Next(old(State()), if ok then CompileOk(text) else CompileFails(text))
    {
      if ok {
        YieldOwn(Status, text, Launching);
      } else {
        YieldOwn(Error, text, Reporting(CompileError));
      }
    }

    method StartPumps()
      requires phase == Launching
      modifies this
      ensures State() == Next(old(State()), Launch)
    {
      hide OnStdout, OnStderr, TakeItem, ReadPiece, EndPump;
      phase, pumping := Draining, true;
      launchedAt, idle := now, 0.0;
    }

    method FinishPump(fromStderr: bool)
      modifies this
      ensures State() == EndPump(old(State()), fromStderr)
    {
      if fromStderr {
        stderrEnded := true;
      } else {
        stdoutEnded := true;
      }
      pumpsDone := pumpsDone + 1;
      if pumpsDone >= 2 {
        chunkQueue := chunkQueue + [None];
      }
    }

    method PumpRound(fromStderr: bool, text: string)
      requires Enabled(State(), PumpReads(Read(fromStderr, text)))
      modifies this, consumer
      ensures State() == Next(old(State()), PumpReads(Read(fromStderr, text)))
    {
      var chunk;
      if fromStderr {
        chunk := consumer.ConsumeStderr(text);
      } else {
        chunk := consumer.ConsumeStdout(text);
      }
      chunkQueue := chunkQueue + Queued(chunk);
      inputs, log := inputs + [Read(fromStderr, text)], log + Emitted(chunk);
      if consumer.limitExceeded {
        FinishPump(fromStderr);
      }
    }

    /** A queue wait that succeeds. */
    method GetItem(waited: real) returns (item: Option<Chunk>)
      requires chunkQueue != []
      modifies this
      ensures item == old(chunkQueue)[0]
      ensures State() == Dequeued(old(State()), waited)
    {
      item := chunkQueue[0];
      chunkQueue := chunkQueue[1..];
      now, iterations := now + waited, iterations + 1;
    }

    /** One round of the queue loop in which the queue delivers within the deadline. */
    method TakeRound(waited: real)
      requires phase == Draining && chunkQueue != [] && 0.0 <= waited <= MaxReal(0.01, timeout - now)
      modifies this
      ensures State() == TakeItem(old(State()), waited)
    {
      var item := GetItem(waited);
      if item == None {
        phase := Settling(false);
      } else {
        events := events + [item.value];
        taken := taken + 1;
      }
    }

    /** One round of the queue loop in which the deadline passes first. */
    method TimeOutRound(notice: string)
      requires phase == Draining
      modifies this
      ensures State() == Next(old(State()), TimeOut(notice))
    {
      var remaining := MaxReal(0.01, timeout - now);
      YieldOwn(Error, notice, Settling(true));
      now, iterations := now + remaining, iterations + 1;
    }

    method Conclude(exitCode: Option<int>, report: string)
      requires phase.Settling?
      modifies this
      ensures State() == Next(old(State()), Finish(exitCode, report))
    {
      var status := RuntimeError;
      if phase.timedOut {
        status := TimeLimitExceeded;
      } else if consumer.limitExceeded {
        status := OutputLimitExceeded;
      } else if exitCode == Some(0) {
        status := Completed;
      }
      YieldOwn(Complete, report, Done(status));
    }

    method Fail(message: string)
      requires !phase.Reporting? && !phase.Done?
      modifies this
      ensures State() == Next(old(State()), Raise(message))
    {
      YieldOwn(Error, message, Reporting(SystemError));
    }

    method ReportFailure(report: string)
      requires phase.Reporting?
      modifies this
      ensures State() == Next(old(State()), Report(report))
    {
      YieldOwn(Complete, report, Done(phase.outcome));
    }
  }
}
