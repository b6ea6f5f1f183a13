/**
  The byte-capped output accumulator of the sandboxes. `OnStdout` and `OnStderr` specify one consume
  call on the accumulator's state; the class performs the same calls on its fields.
 */
module StreamConsumers {
  import opened Models
  import opened Utf8

  /** The fields of a consumer. The cap is any integer: nothing rejects a negative one. */
  datatype ConsumerState = ConsumerState(
    maxBytes: int,
    totalBytes: int,
    limitExceeded: bool,
    stdout: seq<string>,
    stderr: seq<string>)

  function Fresh(maxBytes: int): ConsumerState {
    ConsumerState(maxBytes, 0, false, [], [])
  }

  function Digits(n: nat): string {
    if n < 10 then ["0123456789"[n]] else Digits(n / 10) + ["0123456789"[n % 10]]
  }

  function Decimal(n: int): string {
    if n < 0 then "-" + Digits(-n) else Digits(n)
  }

  /** Text put behind the last piece of standard output when the cap is hit. */
  function LimitMarker(maxBytes: int): string {
    "\n\n[SYSTEM: Output limit of " + Decimal(maxBytes) + " bytes exceeded. Stream terminated.]"
  }

  /** Text that stands for a piece of standard error which does not fit. */
  const STDERR_NOTICE := "\n[SYSTEM: Output limit exceeded. Standard error stream truncated.]"

  function OnStdout(c: ConsumerState, chunk: string): (ConsumerState, Option<Chunk>) {
    if c.limitExceeded then (c, None)
    else if c.totalBytes + Bytes(chunk) > c.maxBytes then
      var allowed := Max(0, c.maxBytes - c.totalBytes);
      var kept := DecodeIgnore(Encode(chunk)[..allowed]);
      (c.(totalBytes := c.totalBytes + allowed, limitExceeded := true, stdout := c.stdout + [kept]),
       Some(Chunk(Stdout, kept + LimitMarker(c.maxBytes))))
    else
      (c.(totalBytes := c.totalBytes + Bytes(chunk), stdout := c.stdout + [chunk]), Some(Chunk(Stdout, chunk)))
  }

  function OnStderr(c: ConsumerState, chunk: string): (ConsumerState, Option<Chunk>) {
    if c.limitExceeded then (c, None)
    else if c.totalBytes + Bytes(chunk) > c.maxBytes then
      (c.(limitExceeded := true), Some(Chunk(Stderr, STDERR_NOTICE)))
    else
      (c.(totalBytes := c.totalBytes + Bytes(chunk), stderr := c.stderr + [chunk]), Some(Chunk(Stderr, chunk)))
  }

  class StreamConsumer {
    var maxBytes: int
    var totalBytes: int
    var limitExceeded: bool
    var stdoutBuffer: seq<string>
    var stderrBuffer: seq<string>

    function State(): ConsumerState
      reads this
    {
      ConsumerState(maxBytes, totalBytes, limitExceeded, stdoutBuffer, stderrBuffer)
    }

    constructor (maxBytes: int := 1048576)
      ensures State() == Fresh(maxBytes)
    {
      this.maxBytes := maxBytes;
      totalBytes, limitExceeded := 0, false;
      stdoutBuffer, stderrBuffer := [], [];
    }

    method ConsumeStdout(chunk: string) returns (r: Option<Chunk>)
      modifies this
      ensures (State(), r) == OnStdout(old(State()), chunk)
    {
      hide Encode, DecodeIgnore, LimitMarker;
      if limitExceeded {
        return None;
      }
      var encoded := Encode(chunk);
      if totalBytes + |encoded| > maxBytes {
        var allowed := Max(0, maxBytes - totalBytes);
        var truncated := DecodeIgnore(encoded[..allowed]);
        totalBytes := totalBytes + allowed;
        limitExceeded := true;
        stdoutBuffer := stdoutBuffer + [truncated];
        return Some(Chunk(Stdout, truncated + LimitMarker(maxBytes)));
      }
      totalBytes := totalBytes + |encoded|;
      stdoutBuffer := stdoutBuffer + [chunk];
      r := Some(Chunk(Stdout, chunk));
    }

    method ConsumeStderr(chunk: string) returns (r: Option<Chunk>)
      modifies this
      ensures (State(), r) == OnStderr(old(State()), chunk)
    {
      hide Encode;
      if limitExceeded {
        return None;
      }
      var size := |Encode(chunk)|;
      if totalBytes + size > maxBytes {
        limitExceeded := true;
        return Some(Chunk(Stderr, STDERR_NOTICE));
      }
      totalBytes := totalBytes + size;
      stderrBuffer := stderrBuffer + [chunk];
      r := Some(Chunk(Stderr, chunk));
    }

    function FullStdout(): string
      reads this
    {
      Concat(stdoutBuffer)
    }

    function FullStderr(): string
      reads this
    {
      Concat(stderrBuffer)
    }
  }
}
