/**
  Values shared by the sandbox, the worker, the backend and the browser: stream events, stream
  chunks, and the text that a sequence of chunks carries for one event type.
 */
module Models {

  datatype Option<+T> = None | Some(value: T)

  /** Event types of the chunks a sandbox yields. */
  datatype Event = Stdout | Stderr | Status | Error | Complete

  /** One streamed chunk; its wall-clock timestamp is display data and is not modelled. */
  datatype Chunk = Chunk(event: Event, data: string)

  /** How an execution ended. */
  datatype ExecutionStatus =
    | Completed
    | CompileError
    | TimeLimitExceeded
    | MemoryLimitExceeded
    | OutputLimitExceeded
    | RuntimeError
    | ResourceLimitExceeded
    | SecurityViolation
    | SystemError

  /** Joins text pieces without a separator. */
  function Concat(parts: seq<string>): string {
    if parts == [] then "" else parts[0] + Concat(parts[1..])
  }

  /** All the text that `chunks` carry for event `e`, in order. */
  function TextOf(chunks: seq<Chunk>, e: Event): string {
    if chunks == [] then ""
    else (if chunks[0].event == e then chunks[0].data else "") + TextOf(chunks[1..], e)
  }

  function Max(a: int, b: int): int {
    if a < b then b else a
  }

  function MaxReal(a: real, b: real): real {
    if a < b then b else a
  }

  lemma {:induction false} ConcatSplits(a: seq<string>, b: seq<string>)
    ensures Concat(a + b) == Concat(a) + Concat(b)
  {
    if a == [] {
      assert a + b == b;
    } else {
      assert (a + b)[1..] == a[1..] + b;
      ConcatSplits(a[1..], b);
    }
  }

  lemma ConcatSnoc(a: seq<string>, s: string)
    ensures Concat(a + [s]) == Concat(a) + s
  {
    ConcatSplits(a, [s]);
    assert Concat([s]) == s + Concat([]);
  }

  lemma {:induction false} TextOfSplits(a: seq<Chunk>, b: seq<Chunk>, e: Event)
    ensures TextOf(a + b, e) == TextOf(a, e) + TextOf(b, e)
  {
    if a == [] {
      assert a + b == b;
    } else {
      assert (a + b)[1..] == a[1..] + b;
      TextOfSplits(a[1..], b, e);
    }
  }

  lemma TextOfSnoc(a: seq<Chunk>, c: Chunk, e: Event)
    ensures TextOf(a + [c], e) == TextOf(a, e) + (if c.event == e then c.data else "")
  {
    TextOfSplits(a, [c], e);
    assert TextOf([c], e) == (if c.event == e then c.data else "") + TextOf([], e);
  }

  lemma {:induction false} TextOfNone(a: seq<Chunk>, e: Event)
    requires forall i :: 0 <= i < |a| ==> a[i].event != e
    ensures TextOf(a, e) == ""
  {
    if a != [] {
      TextOfNone(a[1..], e);
    }
  }
}
