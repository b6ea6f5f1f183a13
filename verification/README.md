# Remote code execution platform: verified model

A Dafny model of how a program's output travels through the platform, and of two components beside
that path, with proofs about every run:

- **Capture.** The byte-capped output accumulator, its UTF-8 cut, the two concurrent pumps of the
  subprocess sandbox with their queue, sentinel and deadline loop, and the container sandbox that stacks a
  second accumulator on the first.
- **Delivery.** The worker numbers chunks, publishes each on a Redis channel and then appends it to a Redis
  list with a time to live; a WebSocket connection subscribes, replays the list, then follows the channel
  and filters by number; the browser filters again and starts over on every reconnection.
- **Admission.** The sliding-window rate limiter, whose check and record are separate Redis transactions.
- **Grading.** Text normalisation, the four comparison modes, the grading loop with its scores and
  verdicts, and the redaction of hidden test cases.

Concurrent parts are step systems: one step is the code between two suspension points, steps interleave
freely, and theorems quantify over all step sequences. Code that updates state is a class whose methods are
proved equal to functions on its state; the laws are lemmas about those functions. For the worker's Redis
calls `DeliveryLaws.TaskIsARun` connects the two: the steps of the delivery system, one per call, leave Redis
as the task's code does.

| file | content |
|---|---|
| `Models.dfy` | events, chunks, statuses, text carried by chunks |
| `Utf8.dfy` | RFC 3629 sections 3 and 4: encoder, sequence table, decoder that ignores errors |
| `StreamConsumer.dfy`, `StreamConsumerLaws.dfy` | the accumulator and its laws |
| `DockerSandbox.dfy` | the container sandbox's stream and its `execute` |
| `ProcessSandbox.dfy`, `ProcessSandboxLaws.dfy`, `ProcessSandboxReports.dfy` | the chunk generator of the subprocess sandbox, its order and delivery, and what it reports |
| `Streaming.dfy` | Redis channel and list, multiplexer, worker task |
| `WebSocketRelay.dfy`, `ExecutionStreamHook.dfy` | the backend's filter and the browser's state |
| `Delivery.dfy`, `DeliveryLaws.dfy`, `Arrival.dfy`, `EndToEnd.dfy` | worker, failing Redis, clock, connection and browser together |
| `RateLimiter.dfy`, `RateLimiterLaws.dfy`, `RateLimiterExactness.dfy` | the rate limiter, its bound, and exactly when it holds |
| `Normalizer.dfy`, `NormalizerLaws.dfy`, `Verifier.dfy` | text comparison |
| `Harness.dfy`, `HarnessLaws.dfy` | grading and redaction |

## What the code promises and what it does not

Where the repository's documentation and code differ, the model follows the code.

- `documentation/DISTRIBUTED_SYSTEM_DESIGN.md:70` promises gapless reconstruction with a last sequence id sent
  by the client. The browser sends none; it starts over and takes the whole list. And since the worker
  publishes before it appends, one frame per connection can be lost: `DeliveryLaws.MissedIffHeldThroughout`
  and, for a Redis that fails, `DeliveryLaws.LostIffHeldThroughout` say exactly when,
  `DeliveryLaws.RaceLosesFrame` is a run in which it happens, and
  `DeliveryLaws.AppendingFirstIsGapless` shows that the opposite order of the two calls would lose none.
- The list is not circular, but it is deleted when the worker is silent for the time to live:
  `DeliveryLaws.ListIsNewestRun`. A browser that connects again after that has thrown away what it showed and
  gets nothing of it again: it shows only what was published since it subscribed, or from the start of the new
  list on. `EndToEnd.ScreenShowsStream` covers all cases, `EndToEnd.LateReturnShowsNothing` is a run. Statements
  that need a list that has not expired say so.
- A task whose publication of a chunk fails does not collect that chunk, although the frame may be out; the
  screen then shows more than the task returns: `EndToEnd.ScreenShowsTask` says exactly when.
- Two stacked accumulators agree about standard output. About standard error they agree only when the short
  notice that replaces the dropped piece does not fit either: `StreamConsumerLaws.TwoStages`, and
  `StreamConsumerLaws.StackedStderrDisagrees` for an input. In the container sandbox the case cannot occur,
  because its first accumulator never sees standard error.
- The rate limiter admits up to `max_requests + c - 1` requests per window when `c` requests can be between
  check and record, and this bound is reached. It holds if and only if nobody is admitted at all, or the
  backends' clock readings lie in a band of at most 5 s around Redis' clock when they get there and are in
  order (or the band has no width, or quota and `c` are both 1): `RateLimiterExactness.BoundHoldsIff`. Expiry
  of the key is invisible if and only if the readings lie in such a band: `RateLimiterExactness.ExpiryNeverShowsIff`.
- Equal tokens match within a tolerance except when a token reads as an infinity or NaN:
  `Verifier.TokenImpliesEpsilonIff`. The tolerance is relative to the expected value only:
  `Verifier.SwappingMattersIff`.
- A Python program that crashes or is timed out in the container sandbox can pass a test case: `execute` reports
  no exit code, no duration and no such status, so only the output counts:
  `HarnessLaws.ContainerCasePassesIff`.
- A compile error whose compiler prints nothing, after a passed case, is graded PARTIAL:
  `HarnessLaws.SilentCompileErrorIsPartial`; `HarnessLaws.OverallVerdict` has the exact condition.

## Model

| member | source | states |
|---|---|---|
| Utf8.HeadRoundTrip | worker/sandbox/stream_consumer.py:21-26 | the encoding of any character, whatever follows it, is recognised by the well-formedness table and decodes to that character |
| Utf8.CutDecodesToFit | worker/sandbox/stream_consumer.py:23-26 | cutting an encoding at any byte and decoding with errors ignored keeps exactly the whole characters before the cut |
| Utf8.CutKeepsLongestPrefix | worker/sandbox/stream_consumer.py:23-26 | that result is a prefix, loses at most 3 of the kept bytes, and no longer prefix of the text fits |
| Utf8.DecodeUndoesEncode | worker/sandbox/stream_consumer.py:24-26 | decoding undoes encoding |
| StreamConsumers.StreamConsumer.constructor | worker/sandbox/stream_consumer.py:9-14 | a new consumer is empty, with the given cap, 1 MiB by default |
| StreamConsumers.StreamConsumer.ConsumeStdout | worker/sandbox/stream_consumer.py:16-37 | the new state and the returned chunk are those of the specification function whose laws follow |
| StreamConsumers.StreamConsumer.ConsumeStderr | worker/sandbox/stream_consumer.py:39-54 | the same for standard error, whose overflowing piece is dropped whole |
| StreamConsumerLaws.ConsumeKeepsLedger | worker/sandbox/stream_consumer.py:16-54 | every call keeps count and cap in step with the held text up to a cut character, keeps the returned chunks equal to the held text plus marker or notice, and a full consumer neither changes nor returns anything |
| StreamConsumerLaws.RunKeepsLedger | worker/sandbox/stream_consumer.py:9-54 | the ledger holds after any mix of calls, and every chunk but an overflow notice has paid at least one byte |
| StreamConsumerLaws.StdoutIsChunkingIndependent | worker/sandbox/stream_consumer.py:16-37 | however a text is cut into pieces, flag, count and output are the same: the longest whole-character prefix that fits |
| StreamConsumerLaws.FullIffOverCap | worker/sandbox/stream_consumer.py:16-54 | for any mix of both streams the flag is raised exactly when all the text handed over is together over the cap |
| StreamConsumerLaws.MarkerNamesCap | worker/sandbox/stream_consumer.py:30-33 | the marker names the cap in decimal digits that read back as it, with a sign exactly if it is negative |
| StreamConsumerLaws.TwoStages | worker/sandbox/docker_sandbox.py:88-105 | a second consumer with the same cap over the first one's chunks: equal without overflow; after a standard output overflow flagged too and filled to exactly the cap with at most 3 bytes of the marker; after a standard error overflow flagged exactly when the notice does not fit |
| StreamConsumerLaws.StackedStderrDisagrees | worker/sandbox/stream_consumer.py:43-50 | one piece of standard error for which the first of two stacked consumers is flagged and the second is not |
| DockerSandboxes.StreamExecute | worker/sandbox/docker_sandbox.py:131-134 | status chunk, capped output of all socket reads whenever polling stops, then the timeout notice if there was a timeout, and the final chunk or the daemon error (also worker/sandbox/docker_sandbox.py:208-299) |
| DockerSandboxes.Execute | worker/sandbox/docker_sandbox.py:88-105 | the result is the state of a consumer over the output chunks of the stream, other events skipped |
| DockerSandboxes.ExecuteReportsCappedOutput | worker/sandbox/docker_sandbox.py:81-105 | for every text that was read from the container and every way of cutting it into reads: limit status exactly when it is over the cap, all of it otherwise, and on overflow the longest fitting prefix and the head of the marker, exactly at the cap |
| ProcessSandboxes.StreamExecution.StartPumps | worker/sandbox/process_sandbox.py:371-426 | the program starts and both pumps may run; the time the compiler took stays charged to the deadline |
| ProcessSandboxes.StreamExecution.PumpRound | worker/sandbox/process_sandbox.py:403-423 | one read of a pump: consume, queue the returned chunk, and at the limit finish the pump |
| ProcessSandboxes.StreamExecution.FinishPump | worker/sandbox/process_sandbox.py:420-423 | the pump is counted, and the second one queues the sentinel |
| ProcessSandboxes.StreamExecution.TakeRound | worker/sandbox/process_sandbox.py:429-437 | one round of the queue loop that gets an item: yield it, or end at the sentinel |
| ProcessSandboxes.StreamExecution.TimeOutRound | worker/sandbox/process_sandbox.py:438-447 | the deadline passes: error chunk, end of the loop |
| ProcessSandboxes.StreamExecution.Prepare | worker/sandbox/process_sandbox.py:286-291 | the first status chunk and whether a compiler runs (also worker/sandbox/process_sandbox.py:364-369) |
| ProcessSandboxes.StreamExecution.FinishCompiling | worker/sandbox/process_sandbox.py:299-363 | second status chunk, or the error chunk of a failed, missing or slow compiler |
| ProcessSandboxes.StreamExecution.Conclude | worker/sandbox/process_sandbox.py:455-476 | the final chunk and the status: timeout before output limit before exit code |
| ProcessSandboxes.StreamExecution.Fail | worker/sandbox/process_sandbox.py:478-488 | an exception gives an error chunk and the status SYSTEM_ERROR |
| ProcessSandboxes.StreamExecution.ReportFailure | worker/sandbox/process_sandbox.py:321-357 | the final chunk after an error (also worker/sandbox/process_sandbox.py:483-492) |
| ProcessSandboxLaws.EveryTraceIsOrdered | worker/sandbox/process_sandbox.py:281-492 | in every run: status chunks, then output, then errors, then one final chunk, which is last and is there exactly when the run is done |
| ProcessSandboxLaws.NoOutputAfterError | backend/app/api/v1/endpoints/websocket.py:75-77 | whoever stops at an error or final chunk has seen all program output |
| ProcessSandboxLaws.SentinelIsLastAndUnique | worker/sandbox/process_sandbox.py:397-423 | in every reachable state, also after a timeout or an exception while pumps go on, the queue is the accepted chunks not yet yielded, then the sentinel once both pumps are done and until it is taken; after that it stays empty |
| ProcessSandboxLaws.DrainedRunYieldsEverything | worker/sandbox/process_sandbox.py:397-447 | a run without timeout yields exactly the chunks the consumer returned, in consumption order, and per stream the consumer's text plus marker or notice |
| ProcessSandboxLaws.StatusReportsOverflow | worker/sandbox/process_sandbox.py:458-465 | the final status is the output limit exactly when the yielded chunks carry a marker or a notice |
| ProcessSandboxReports.FinalStatusIsTold | worker/sandbox/process_sandbox.py:455-476 | the final status of every run, from its steps: time limit exactly if the queue loop timed out, else output limit exactly if the output is over the cap, else completed exactly if the exit code was 0, else runtime error; for runs that fail before or beside that, compile error exactly if the compiler failed and system error exactly if an exception was raised (also worker/sandbox/process_sandbox.py:321-357, worker/sandbox/process_sandbox.py:478-492) |
| ProcessSandboxReports.OwnChunksAreYielded | worker/sandbox/process_sandbox.py:281-492 | beside the program's output a run yields exactly the notices, messages and reports of its steps, each as a chunk of its kind and in order |
| ProcessSandboxReports.NoEarlyTimeout | worker/sandbox/process_sandbox.py:429-447 | the queue loop never times out before the deadline |
| ProcessSandboxReports.OverflowStopsPumps | worker/sandbox/process_sandbox.py:415-423 | after the piece that takes the output over the cap at most one more piece is read, and then both pumps have ended |
| ProcessSandboxLaws.TimedOutRunYieldsPrefix | worker/sandbox/process_sandbox.py:438-447 | a timed-out run yields an initial part of the accepted chunks and then the error chunk |
| ProcessSandboxLaws.StreamedStdoutIsCapped | worker/sandbox/process_sandbox.py:400-447 | for a program silent on standard error the streamed text is one function of its output, for all reads and interleavings |
| ProcessSandboxLaws.QueueLoopIsBounded | worker/sandbox/process_sandbox.py:429-447 | the queue loop makes at most the cap plus 2 rounds and, with time passing only in its waits, ends by the timeout (or the launch, if the compiler took longer) plus 0.01 s per round |
| Streaming.StreamStore.RPush | worker/streaming/buffer.py:23 | the frame is appended and the new length returned |
| Streaming.StreamStore.Expire | worker/streaming/buffer.py:24 | the list's deadline is the present plus the time to live; nothing happens if the list is gone |
| Streaming.StreamStore.GetBuffered | worker/streaming/buffer.py:43-51 | the frames from the index on, a negative index counting from the end |
| Streaming.CatchUpFromIndex | worker/streaming/buffer.py:43-51 | reading from an index gives the frames from there on, for indices in range, beyond it and negative ones |
| Streaming.StreamMultiplexer.FormatPayload | worker/streaming/multiplexer.py:21-31 | frames carry consecutive numbers |
| Streaming.StreamMultiplexer.PublishChunk | worker/streaming/multiplexer.py:33-44 | channel, list and deadline after publishing, then appending, then refreshing, for every call that can raise with or without effect; the number is used up in any case |
| Streaming.PumpChunks | worker/tasks/execution.py:111-123 | chunks are published and collected up to the first exception |
| Streaming.StreamAndCollect | worker/tasks/execution.py:86-163 | channel, list, deadline and result of the task are those of its sequence of publications, for every pattern of faults and waits |
| Streaming.FeedReaches | worker/streaming/multiplexer.py:39-43 | a sequence of publications adds to channel and list exactly the frames whose calls took effect |
| Streaming.FramesOfTask | worker/tasks/execution.py:111-145 | what a task leaves: the handled chunks numbered from 0, the chunk whose publication failed as far as it got, and the error chunk under the next number |
| Streaming.FaultFreeTask | worker/tasks/execution.py:112-123 | without faults channel and list get every chunk under its own number, and the result carries the text of the stream (also worker/tasks/execution.py:155-163) |
| Streaming.FaultyTaskStaysOrdered | worker/tasks/execution.py:111-145 | with any faults numbers strictly increase with at most one missing below the last, the list holds nothing unpublished, and the result's text is that of the chunks before the failure (also worker/streaming/multiplexer.py:30-43) |
| Streaming.TaskReports | worker/tasks/execution.py:111-163 | for every environment: no result exactly if the error chunk cannot be published; otherwise the failure exactly if the sandbox raised or a chunk's publication failed, the text of both streams up to there, and the report of the last COMPLETE chunk up to there; the error chunk names the cause |
| WebSocketRelay.DownstreamPump | backend/app/api/v1/endpoints/websocket.py:45-83 | replay and follow are one filter over snapshot and channel, which stops behind the first live frame with a complete or an error event and nowhere else |
| WebSocketRelay.RelaySendsRecords | backend/app/api/v1/endpoints/websocket.py:49-73 | for arbitrary contents exactly the frames that are text, or have a number above those of all frames before, are sent, in their order |
| WebSocketRelay.SentNumbersIncrease | backend/app/api/v1/endpoints/websocket.py:49-73 | for arbitrary contents, even of a task that ran twice, the well-formed frames sent have strictly increasing numbers |
| WebSocketRelay.WithheldOnlyIfPassed | backend/app/api/v1/endpoints/websocket.py:53-56 | a numbered frame is withheld only if an earlier one had at least its number |
| ExecutionStreamHook.ExecutionStream.ConnectToStream | frontend/src/hooks/useExecutionStream.ts:35-45 | every connection starts from nothing |
| ExecutionStreamHook.ExecutionStream.HandleMessage | frontend/src/hooks/useExecutionStream.ts:70-162 | duplicates and text that does not parse change nothing, the final frame terminates, other frames are appended by kind |
| ExecutionStreamHook.ShowsWhatItReceives | frontend/src/hooks/useExecutionStream.ts:75-80 | frames in increasing order are all accepted, and the screen shows exactly their standard output (also frontend/src/hooks/useExecutionStream.ts:142-162) |
| ExecutionStreamHook.BrowserShowsTaken | frontend/src/hooks/useExecutionStream.ts:70-162 | for arbitrary frames the browser shows exactly those with a number above all before, in order and each under its kind, and counts the run as over exactly if a final frame was among them |
| DeliveryLaws.AtMostOneFrameIsMissing | backend/app/api/v1/endpoints/websocket.py:45-83 | for every interleaving and any clock a connection has sent every frame from the start of its snapshot to the last one it has processed, in order and once, except at most the one whose number follows the snapshot; after an expired list, everything published since the subscription (also backend/app/api/v1/endpoints/websocket.py:109, worker/streaming/multiplexer.py:39-43) |
| DeliveryLaws.SnapshotMissesIff | worker/streaming/multiplexer.py:39-43 | a snapshot misses a frame exactly when the worker is between its two calls and nothing was published since the subscription (also backend/app/api/v1/endpoints/websocket.py:48) |
| DeliveryLaws.MissedIffHeldThroughout | worker/streaming/multiplexer.py:39-43 | the exact race over a whole run: the frame was published and not appended at the subscription and is not appended before the list is read (also backend/app/api/v1/endpoints/websocket.py:48, backend/app/api/v1/endpoints/websocket.py:109) |
| DeliveryLaws.LostIffHeldThroughout | worker/streaming/multiplexer.py:39-43 | the same for a Redis that may fail: a frame before the first fault is lost exactly if nothing had failed at the subscription, the frame was published and not appended, and the second call is not made before the list is read (also worker/streaming/buffer.py:22-25) |
| DeliveryLaws.RaceLosesFrame | worker/streaming/multiplexer.py:39-43 | a concrete run in which a live connection never gets a frame that was published and appended |
| DeliveryLaws.AppendingFirstIsGapless | worker/streaming/multiplexer.py:39-43 | with the two calls swapped nothing between the start of the snapshot and the last processed frame is ever missed (also documentation/DISTRIBUTED_SYSTEM_DESIGN.md:70) |
| DeliveryLaws.StoppedByFinalFrame | backend/app/api/v1/endpoints/websocket.py:75-77 | in every run a live connection has consumed no complete and no error frame from the channel and a stopped one exactly one, as the last; so a connection that subscribed before such a frame, was not closed and has consumed its inbox is stopped |
| DeliveryLaws.ListIsNewestRun | worker/streaming/buffer.py:22-25 | under any clock the list is a contiguous run of the appended frames up to the newest, complete exactly when the worker was never silent for the time to live, and catching up from an index returns the frames from there on (also worker/streaming/buffer.py:43-51) |
| DeliveryLaws.TaskIsARun | worker/streaming/multiplexer.py:33-44 | the publications of a task, performed call by call in the delivery system, leave channel, list and deadline as the task's code does |
| EndToEnd.ScreenShowsSent | frontend/src/hooks/useExecutionStream.ts:75-80 | after any reconnections, whatever fails and however old the list is, a browser that has caught up shows the standard output of the chunks before the first fault that its connection gets, and then that of the later chunks that were sent; the connection gets the chunks from the start of the list it reads on, without the one lost to the race, or those published since its subscription if the list was empty (also backend/app/api/v1/endpoints/websocket.py:45-83) |
| Arrival.FaultyFrameSent | worker/streaming/multiplexer.py:39-43 | exactly when a connection gets the first frame with a fault: it was stored and is in the snapshot, or it was published and came through the channel, with an empty snapshot or nothing later in it (also backend/app/api/v1/endpoints/websocket.py:45-83) |
| EndToEnd.ScreenShowsStream | frontend/src/hooks/useExecutionStream.ts:38-45 | if nothing fails: while the list has not expired, the standard output of all chunks, or of all but the one lost to the race; after an expired list, that of the chunks from the start of the new list on, or since the subscription if there was none (also frontend/src/hooks/useExecutionStream.ts:162, backend/app/api/v1/endpoints/websocket.py:45-83) |
| EndToEnd.LateReturnShowsNothing | frontend/src/hooks/useExecutionStream.ts:35-45 | a run in which a browser shows a chunk, connects again after the time to live and shows nothing, with nothing left to come (also worker/streaming/buffer.py:22-25) |
| EndToEnd.ScreenShowsTask | worker/tasks/execution.py:111-163 | for any chunks, raising sandbox, faults, interleaving, reconnections and expiry: the screen shows what the connection gets of the chunks the task handled, then the chunk whose publication failed exactly if it arrived; so if the list had not expired and no chunk was lost it equals the stdout the task returns if and only if no such text arrived (also frontend/src/hooks/useExecutionStream.ts:162) |
| EndToEnd.ScreenShowsTaskOutput | worker/tasks/execution.py:112-118 | the same for the chunks of every run of the subprocess sandbox, complete or broken off (also worker/tasks/execution.py:133-161) |
| EndToEnd.ScreenShowsResult | worker/tasks/execution.py:133-163 | while no publication of a chunk fails, the list had not expired and nothing was missed, the screen shows exactly the stdout the task returns, also when the sandbox raises |
| EndToEnd.TaskReturnsFinalReport | worker/tasks/execution.py:121-123 | a fault-free task over any finished sandbox run returns the run's final report, its last chunk, and the text of both streams (also worker/tasks/execution.py:155-163) |
| EndToEnd.ScreenShowsCappedOutput | worker/sandbox/process_sandbox.py:397-476 | for a program that is not timed out, with a list that had not expired and nothing missed, it shows the longest prefix of the output that fits the cap, with the marker if something was cut (also frontend/src/hooks/useExecutionStream.ts:162) |
| EndToEnd.ContainerTraceIsOrdered | worker/sandbox/docker_sandbox.py:131-299 | the container sandbox's stream has the same order of events: status, output, up to two errors, final chunk |
| EndToEnd.ContainerStreamTells | worker/sandbox/docker_sandbox.py:259-299 | the errors of the container's stream are the timeout notice exactly if there was a timeout and then the daemon's message exactly if it failed; the final report is there, and last, exactly if the container was inspected |
| EndToEnd.ScreenShowsContainerOutput | worker/sandbox/docker_sandbox.py:208-299 | for the text read from a program in the container sandbox, however it was cut into reads and however polling ends, the screen shows the same prefix and marker (also frontend/src/hooks/useExecutionStream.ts:162) |
| RateLimiting.RateLimiter.CheckRequest | backend/app/core/rate_limiter.py:40-66 | purge, count and decision of the first transaction, and which requests it leaves pending |
| RateLimiting.RateLimiter.RecordRequest | backend/app/core/rate_limiter.py:69-72 | the second transaction records the request and refreshes the key |
| RateLimiterLaws.EveryWindowIsBounded | backend/app/core/rate_limiter.py:40-53 | with clock readings in order and in a band of 5 s around Redis' clock, and at most c requests between check and record, every half-open window, wherever it ends, holds at most max_requests + c - 1 accepted requests (also backend/app/core/rate_limiter.py:69-72) |
| RateLimiterLaws.RejectedOnlyWhenFull | backend/app/core/rate_limiter.py:53-66 | a rejection means that max_requests accepted requests lie in the current window; with nothing pending a prompt check is rejected exactly then |
| RateLimiterLaws.RetryAfterIsHonest | backend/app/core/rate_limiter.py:65 | a rejected client that waits the advertised time with nothing recorded in between is accepted, if and only if the limit admits anybody |
| RateLimiterLaws.ExpiryIsInvisible | backend/app/core/rate_limiter.py:71 | if readings lie in a band of 5 s around Redis' clock, in whatever order, the key's expiry never changes a decision |
| RateLimiterExactness.BoundIsReached | backend/app/core/rate_limiter.py:46-53 | for every quota, every c and every way the clocks may differ some run reaches the bound (also backend/app/core/rate_limiter.py:69-72) |
| RateLimiterExactness.BoundHoldsIff | backend/app/core/rate_limiter.py:40-53 | for every quota, window, concurrency, lateness, earliness and disorder of clock readings: no window of any run exceeds the bound if and only if nobody is admitted, or the readings spread by at most 5 s and are in order, cannot be otherwise, or quota and concurrency are one (also backend/app/core/rate_limiter.py:69-72) |
| RateLimiterExactness.LateReadingsOverfill | backend/app/core/rate_limiter.py:71 | whenever readings may spread by more than 5 s, a run in perfect order puts max_requests + c into a window |
| RateLimiterExactness.DisorderOverfills | backend/app/core/rate_limiter.py:40-49 | whenever readings may be out of order, however little, and quota and c are not both one, a prompt run puts max_requests + c into a window |
| RateLimiterExactness.ExpiryNeverShowsIff | backend/app/core/rate_limiter.py:71 | the limiter decides as one whose key is kept forever if and only if readings spread by at most 5 s or nobody is admitted |
| RateLimiterExactness.LateCheckOverfills | backend/app/core/rate_limiter.py:71 | an instance: a quota of one, and a check 6 s late (also backend/app/core/rate_limiter.py:40-49) |
| RateLimiterExactness.OutOfOrderCheckOverfills | backend/app/core/rate_limiter.py:40-49 | an instance: requests one at a time, a second late and a second out of order, and three of them in a window with a quota of two |
| Normalizer.NormalizeText | worker/grading/normalizer.py:12-23 | the loops compute the specification function whose laws follow |
| NormalizerLaws.NormalizeIsCanonical | worker/grading/normalizer.py:13-23 | the result has no CR, no line with trailing whitespace and no trailing blank line; exactly such texts are left alone; normalising twice is normalising once |
| NormalizerLaws.NormalizeEquallyIffLinesAgree | worker/grading/normalizer.py:13-23 | two texts normalise equally exactly when their lines, ended by CR LF, CR or LF, agree up to trailing whitespace and trailing blank lines |
| NormalizerLaws.TokensSurviveNormalization | worker/grading/normalizer.py:13-28 | normalisation never changes the tokens |
| NormalizerLaws.TokensAreTheWords | worker/grading/normalizer.py:26-28 | tokens are not empty, contain no whitespace, and together are the text without whitespace |
| NormalizerLaws.WordIsOneToken | worker/grading/normalizer.py:26-28 | a word is never taken apart |
| NormalizerLaws.SpaceSeparates | worker/grading/normalizer.py:26-28 | the texts before and behind any whitespace character are tokenised on their own |
| NormalizerLaws.EqualTokensIff | worker/grading/normalizer.py:26-28 | two texts have equal tokens exactly when they agree up to the whitespace between, before and behind their words |
| NormalizerLaws.SpacesAre | worker/grading/normalizer.py:18-28 | the characters that strip and split count as whitespace are exactly the 29 listed; no printable ASCII character is one |
| Verifier.StricterModesImply | worker/grading/verifier.py:27-54 | a strict match is a normalised match, and a normalised match is a token match, on all texts |
| Verifier.ModesMean | worker/grading/verifier.py:27-97 | exactly when two texts match in each mode: equal; lines equal up to trailing whitespace and trailing blank lines; equal up to whitespace; equally many tokens that pairwise are the same word, not both numbers, or finite numbers within the tolerance |
| Verifier.DifferentWordsDiffer | worker/grading/verifier.py:89-95 | two different words of which the expected one is no number never match within a tolerance |
| Verifier.TokenImpliesEpsilonIff | worker/grading/verifier.py:56-97 | texts with equal tokens match within a tolerance exactly when no token is an infinity or NaN, the tolerance not being negative |
| Verifier.InfinityIsNotClose | worker/grading/verifier.py:56-97 | a text that matches itself by tokens and not within any tolerance |
| Verifier.CloseIsRelative | worker/grading/verifier.py:72-83 | the absolute-or-relative test is one inequality: difference at most the tolerance times the larger of 1 and the expected size |
| Verifier.SwappingMattersIff | worker/grading/verifier.py:72-83 | swapping expected and actual value changes the verdict exactly when their difference lies between the tolerances of the two |
| Verifier.CloseIsNotSymmetric | worker/grading/verifier.py:76-83 | a pair of values for which it does |
| Harness.JudgeReports | worker/grading/harness.py:60-238 | whichever branch a case takes, its verdict carries the case's identity, points are earned by passing only, and it passes exactly when it ran within its limits, was not reported as a runtime error, had no exit code or the exit code 0, and matched |
| Harness.JudgeCases | worker/grading/harness.py:45-238 | the loop with its early exit yields the verdicts of the specification and counters equal to sums and maximum over them |
| Harness.EvaluateSubmission | worker/grading/harness.py:41-261 | the summary: verdicts, score, maximum, passed count, duration, peak memory, compile text and overall verdict |
| Harness.DetermineOverallStatus | worker/grading/harness.py:263-287 | the overall verdict is the specification's |
| HarnessLaws.VerdictsBelongToCases | worker/grading/harness.py:51-238 | one verdict per case in order, with the case's identity; compile errors from the first one on and nowhere else |
| HarnessLaws.VerdictOfRun | worker/grading/harness.py:118-238 | exactly when a case that compiled is over time, over memory, a runtime error, wrong or accepted, in terms of status, time, memory, limits, exit code and output; with its data, output, diff and message |
| HarnessLaws.VerdictOfRaise | worker/grading/harness.py:60-78 | SYSTEM_ERROR exactly if the sandbox raised, with its message |
| HarnessLaws.CompileErrorSpreads | worker/grading/harness.py:86-124 | from the first case that fails to compile on every case is a compile error without output; the recorded text is that case's compiler output, or its standard error if there is none |
| HarnessLaws.EverythingCompiles | worker/grading/harness.py:51-238 | if every case compiles, each is judged on its own run and there is no compiler text |
| HarnessLaws.GradedScore | worker/grading/harness.py:41-46 | with weights that are not negative the score lies between 0 and the maximum, and with positive ones it is the maximum exactly when all cases passed (also worker/grading/harness.py:201-219) |
| HarnessLaws.NoPointIsLost | worker/grading/harness.py:41-46 | the score and the weight of the cases that did not pass make up the maximum score (also worker/grading/harness.py:201-219) |
| HarnessLaws.TotalsAddUp | worker/grading/harness.py:80-84 | score, passed count and duration are sums over the cases and the peak memory their maximum, however the cases are split |
| HarnessLaws.OverallVerdict | worker/grading/harness.py:263-287 | ACCEPTED exactly when every case passed; COMPILE_ERROR exactly when the compiler said something or the first case failed to compile; PARTIAL exactly when some but not all passed and no compile text was recorded |
| HarnessLaws.OverallIsExactly | worker/grading/harness.py:263-287 | the overall verdict for any results: COMPILE_ERROR if there is compiler text, ACCEPTED if all passed, PARTIAL if some but not all, and otherwise the first case's own verdict |
| HarnessLaws.SilentCompileErrorIsPartial | worker/grading/harness.py:88 | a compile error that is reported as PARTIAL (also worker/grading/harness.py:268-280) |
| HarnessLaws.ContainerCasePassesIff | worker/sandbox/docker_sandbox.py:88-105 | a case run in the container sandbox passes exactly when its capped output matches, whether the program crashed, was timed out or ended well (also worker/grading/harness.py:60-238) |
| HarnessLaws.ContainerVerdictIgnoresEnding | worker/sandbox/docker_sandbox.py:98-105 | its whole verdict does not depend on how the container ended (also worker/grading/harness.py:60-238) |
| Harness.SanitizeForStudent | worker/grading/harness.py:289-316 | the result is the summary with the verdicts of hidden cases redacted |
| HarnessLaws.StudentsSee | worker/grading/harness.py:289-316 | what of a hidden case is replaced, removed and kept, and that all else is kept |
| HarnessLaws.VerdictTexts | worker/grading/models.py:11-22 | the text a student sees in place of a hidden case's error |
| HarnessLaws.SanitizingHidesExactly | worker/grading/harness.py:289-316 | students see equal summaries exactly when the summaries differ only in input, expected output, actual output, diff and error text of hidden cases |
| HarnessLaws.SanitizingKeepsVerdicts | worker/grading/harness.py:263-316 | scores, counts and a recomputed overall verdict are unchanged, and sanitising twice is sanitising once |

## Left out

- Real Redis, Docker, subprocesses, sockets, threads and JSON: Redis is a list with a deadline, an ordered channel and a map of times; process output is an arbitrary sequence of decoded pieces; frames are values.
- DockerSandboxes.StreamExecute: speaks of the reads that reached the queue before its last drain; output that is still in the container's socket, or that the reader thread queues later, is lost and not modelled.
- Decoding of raw reads: a multi-byte character that straddles two reads is replaced before the accumulator sees it; pieces are the texts after that step.
- The payload of the final chunk: its JSON text is an arbitrary string; the status it reports is a field of the sandbox's phase.
- Loss of a queue item by a cancelled wait, and an exception thrown into the generator by its consumer.
- Messages of `send_text` failures, authentication and the upstream half of the WebSocket endpoint.
- Bounds on reconnection: the browser resets its attempt counter on every attempt, so there is none.
- That a connection always ends: a final frame that is replayed does not close it.
- The browser's completion banner with exit code and hint, telemetry, and the fallback for a status field that frames of this worker never have.
- Frames without a sequence number, and messages that are JSON but not objects: the worker writes neither. Text that does not parse at all is modelled.
- The rate limiter's behaviour when Redis fails (it admits everybody) and its separation of keys: one key is modelled.
- A Redis clock that is set back: it only moves forward; the backends' clocks may be anywhere around it.
- Floating-point rounding and overflow: token values are reals or not finite.
- Harness.EvaluateSubmission: omits the percentage, which is the score over the maximum, rounded for display.
- Diff text and failure reasons in grading: functions given to the model.
- Standard error chunking: an overflowing piece is dropped whole, so the held text depends on the chunking; only the ledger holds.
- `ProcessSandbox.execute`, `MicroVMSandbox`, pseudo-terminal sessions, language strategies, rooms, services, database, frontend components and deployment files.
