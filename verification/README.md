# syswatch: a verified model of the event pipeline

syswatch samples system metrics in one thread, queues them as JSON events, and delivers them in a
second thread to stdout, to a file or to an HTTP receiver. This project models that path and the
parts around it, and proves properties of the model:

- **Delivery.** `RingQueue.dfy` is the queue of `src/queue.c`, in place; `DropOldest.dfy` is the plain queue
  it implements. `OutputState.dfy` is the output state of `src/output.c`, in place; `Outbox.dfy` says what
  each of its calls does. `Pipeline.dfy` puts both queues' specifications together with the two threads, the
  main thread and signals of `src/main.c` in one transition system, and `Delivery.dfy` holds the theorems
  about every run of it. `Iterations.dfy` counts the collector's iterations and events, `Batching.dfy` says
  when the HTTP output posts and what, `HttpDelivery.dfy` what a whole run in HTTP mode delivers,
  `Schedules.dfy` when the program ends, `Lines.dfy` that the runs, which number events, say the same about
  their texts, `Ingestion.dfy` follows the events into the log of the web UI, whatever requests and answers
  get lost, and `Measurements.dfy` says when that log holds what was measured. `Order.dfy`, `Powers.dfy`,
  `Numbers.dfy` and `Options.dfy` are helpers.
- **Retries.** `Backoff.dfy`: the 32-bit backoff shift against the schedule it is written for.
- **JSON.** `Json.dfy` is a JSON reader (sections 2 to 7 of RFC 8259), `Utf8Text.dfy` the decoding of the
  bytes before it (section 8.1), and `JsonCompose.dfy` shows how texts put together from parts are read and
  decoded. `JsonEscape.dfy` is the truncating escaper, `MetricEvents.dfy` the disk and network event builders,
  `Events.dfy` all other events, `Samples.dfy` what a value must hold to tell a measurement, `RawNames.dfy`
  what unescaped device names do to an event and its batch, `HttpBody.dfy` the request body and its receiver,
  and `Receivable.dfy` which events the receiver can decode.
- **Configuration.** `ConfigText.dfy` (one line), `ConfigLines.dfy` (lines as they are written),
  `ConfigLoad.dfy` (the loader as a fold over lines), `ConfigKeys.dfy` (what each key takes and refuses),
  `ConfigBuffer.dfy` (the loader in its own form, on one line buffer changed in place), `ConfigLayout.dfy`
  (how lines and files compose), `ConfigPieces.dfy` (long lines, which are read in pieces),
  `ConfigComments.dfy` (what does not matter in a file), `ConfigRoundTrip.dfy` (print, then load) and
  `ConfigChecks.dfy` (loading, validating and starting).
- **Rates, web UI, processes.** `Rates.dfy`, `EventStore.dfy`, `TopProcesses.dfy`.

Everything a call depends on besides its arguments (server answers, clock readings, allocation and
file failures, the order in which threads move, the moment of a signal) is an input, so every theorem
covers every mix of them. Thread safety is taken from the lock: each queue call is one atomic step.

Where the code and its intention differ, the model follows the code:

- After a signal, up to six events can stay in the queue for good; the bound of six is met
  (`Delivery.SixEventsCanRemain`). Without a signal nothing stays.
- The receiver decodes a body as UTF-8 before it reads JSON and does not answer when that fails. Nothing
  in syswatch checks the encoding: one event with a Latin-1 host or device name, or with a host name cut
  inside a character, makes its whole batch fail every retry and be thrown away (`Receivable`, `HttpBody`).
- Device names are printed unescaped: an event reads back exactly when no name holds a quote, a
  backslash or a control byte. A quote in a name can make the event no JSON at all; the receiver then answers
  400 to its whole batch, and the client throws the batch away and counts that as success (`RawNames`,
  `Ingestion`).
- When the receiver has ingested a request but its acknowledgement does not reach the client, the batch is
  posted again or given up. So delivery to the web UI is not exactly once: its log is the delivered events,
  each once and in order, if and only if there was no such request. In any case the delivered events are in
  the log in order, and what else is there came with such requests. Requests that never arrive, and the
  retries after them, do no harm (`Ingestion`).
- The backoff is the intended one for all configurable bases exactly up to 21 retries. The
  configuration allows 100: with base 2048 the 22nd wait is zero seconds. A single configuration is safe
  exactly when it has at most 32 retries and 2^(33 - retries) does not divide the base (`Backoff`).
- `validate_config` refuses some configurations that `output_init` accepts, all of them `http_post`: an
  empty url when the environment supplies one, and an unset batch size or interval, which then become
  50 and 2 (`ConfigChecks`).
- The fallbacks of 5 retries and a base of one second in `output_init` are never used: what a file leaves
  unset is 0, so a config that sets no retries gets none (`ConfigChecks`).
- In the web UI an event without a type is indexed as "unknown" but never found under that name.
- Asking for zero processes skips the tick table, so later CPU percentages change.
- A comment behind a line is cut off if and only if the line closes its quotes or has a comment already
  (`ConfigText`). Blanks are trimmed in any case.
- `fgets` takes at most 1023 characters, so a longer line is read in pieces, and what follows the piece in
  which a comment starts is read as a line of its own: refused, or carried out as an assignment. So all comment
  lines of n characters are insignificant if and only if n <= 1023, and a comment behind a line, or behind k
  leading blanks, exactly as long as it ends with the piece that holds its sign (`ConfigPieces`,
  `ConfigComments`). Blanks need no such bound.

## Model

| member | source | states |
|---|---|---|
| `RingQueue.EventQueue.constructor` | src/queue.c:10-32 | a new queue stands for the empty plain queue |
| `RingQueue.EventQueue.Enqueue` | src/queue.c:43-76 | the ring implements drop-oldest insertion on the plain queue; empty and oversized events are refused and change nothing; `tail` is the slot `count` places after `head`, and emitted = dropped + dequeued + queued (its `Valid`) |
| `RingQueue.EventQueue.EvictOldest` | src/queue.c:51-55 | overflow moves exactly the oldest event to the lost ones |
| `RingQueue.EventQueue.Append` | src/queue.c:58-70 | the new event goes last in the queue and in the log of accepted events |
| `RingQueue.EventQueue.DequeueBatch` | src/queue.c:79-99 | the first min(max, count) events in order land in `out`, the rest of `out` and of the queue is as before; a non-positive max is refused |
| `RingQueue.EventQueue.PopInto` | src/queue.c:88-94 | one round of the copy takes exactly the oldest event |
| `RingQueue.EventQueue.Counters` | src/queue.c:102-121 | the two counters are the number of queued and of lost events of the plain queue |
| `RingQueue.SlotIsRemainder` | src/queue.c:53-68 | the remainder in the code is the slot counted around the ring |
| `DropOldest.PutKeepsConsistent` | src/queue.c:51-69 | an enqueue keeps: the queue is the end of the log, and what is before it was lost or taken once each, in order |
| `DropOldest.TakeKeepsConsistent` | src/queue.c:87-95 | a dequeue keeps the same |
| `DropOldest.RunConserves` | src/queue.c:43-99 | after any interleaving of calls the log is the enqueued events in call order, split without repeats into lost, taken and queued, each in order |
| `DropOldest.NewestSurvive` | src/queue.c:51-69 | with no dequeues the queue holds the newest min(n, capacity) events and the lost ones are all older ones in order |
| `Outbox.RetryEndsAtFirstDecision` | src/output.c:225-288 | the retry loop ends at the first 2xx or non-429 4xx answer, else after exactly retry_max_attempts + 1 posts |
| `Outbox.PostBatchOutcome` | src/output.c:184-289 | one call posts at most retry_max_attempts + 1 times, always the same items; nothing changes if the loop is not entered; otherwise the batch ends empty, goes to delivered exactly on 2xx, and 0 is returned exactly for an answered or rejected batch |
| `Batching.PostBatchByStatus` | src/output.c:249-288 | by the codes of the answers: 200 to 299 delivers the batch at once, 400 to 499 other than 429 discards it at once with return code 0, and after any other code or none it is posted again, until retry_max_attempts + 1 posts have been made and it is discarded with -1 |
| `Batching.QuietEmit` | src/output.c:291-306 | nothing is posted while the batch with the new event is not full and is empty, has no clock reading, or is younger than the interval: the event joins the batch, or is discarded when an allocation fails; the batch keeps its first clock reading |
| `Batching.FillingEmit` | src/output.c:432-448 | the event that fills the batch is posted with all of it at once; without a body or a handle all of it stays batched |
| `Batching.DueEmit` | src/output.c:291-306 | a batch that is full or as old as the interval is posted first; if that fails the event is discarded, else it is emitted to the empty batch |
| `Batching.LocalEmit` | src/output.c:411-431 | one line per event on stdout or in the file, and nothing else changes; without an open file the event is discarded |
| `Batching.RoundMakesFullRequests` | src/main.c:304-319 | a round that drains n events into an empty batch, with memory, first answers that acknowledge and clocks within the interval, makes ceil(n / batch_size) requests, all full but the last, which are together the drained events in order, and ends with an empty batch, whatever moves of other threads come in |
| `Batching.ChunksAreTheWhole` | src/output.c:445-448 | cutting a round into batches of batch_size keeps order and content, leaves only the last one short and none empty |
| `Batching.EmptyRoundPauses` | src/main.c:311-315 | a round that finds the queue empty changes nothing and pauses before the next look |
| `Batching.RoundsEndWithAFlush` | src/main.c:310-319 | the end of a round, of the delivery thread and of main post whatever is batched, if there is a body and a handle |
| `Outbox.GrownCapacityBounds` | src/output.c:113-136 | doubling reaches the need, stays 16 times a power of two, and is below twice the need |
| `Outbox.FlushLeavesRoom` | src/output.c:291-306 | if the early flush succeeds there is room for one more item under the limit |
| `Outbox.EmitKeepsBounded` | src/output.c:411-452 | no emit, whatever fails, exceeds batch_size or the capacity bound |
| `Outbox.EmitConserves` | src/output.c:411-452 | an emitted event ends in exactly one of delivered, batched, discarded, and no other event moves out of them |
| `Order.PostBatchOrderly` | src/output.c:184-289 | posting keeps the enqueue order and never re-posts an acknowledged item |
| `Order.EmitOrderly` | src/output.c:411-452 | emitting the next event in line keeps the enqueue order and the same |
| `OutputState.Output.constructor` | src/output.c:308-404 | a started output holds nothing; in HTTP mode it has room for 16 items, else for none |
| `OutputState.Output.FreeBatchItems` | src/output.c:92-111 | the freed slots are empty, the batch and its start time are gone, delivered and discarded events untouched |
| `OutputState.Output.EnsureCapacity` | src/output.c:113-136 | growth keeps every item in place and gives the specified capacity; a failed allocation changes nothing |
| `OutputState.Output.HttpPostBatch` | src/output.c:184-289 | the in-place call and its return code are the specified ones; every request body is the JSON array of the batch; the waits are the backoff of each undecided attempt but the last |
| `OutputState.Output.RetryLoop` | src/output.c:225-288 | posts and waits of the loop alone, and which verdict it reaches |
| `OutputState.Output.MaybeFlushHttpBatch` | src/output.c:291-306 | flushes exactly when size or age demand it |
| `OutputState.Output.StoreEvent` | src/output.c:432-448 | stores, or refuses on a failed allocation, and posts a batch that became full |
| `OutputState.Output.EmitEvent` | src/output.c:411-452 | all three modes do what the specification says to the whole output state |
| `OutputState.Output.FlushOutput` | src/output.c:454-465 | only HTTP mode posts |
| `OutputState.Output.ShutdownOutput` | src/output.c:467-489 | after a last flush nothing stays batched; what could not be sent is discarded |
| `Pipeline.InitialInv` | src/main.c:544-558 | the invariant holds when the threads start |
| `Pipeline.CollectKeepsControl` | src/main.c:102-291 | a collector step spends its budget of events once stop is up |
| `Pipeline.DeliverKeepsEvents` | src/main.c:304-319 | every delivery step keeps conservation and order |
| `Pipeline.StepKeeps` | src/main.c:102-322 | every step of either thread, of main and every signal keeps the invariant |
| `Pipeline.RunFromKeeps` | src/main.c:102-322 | so does every run |
| `Delivery.EachEventInOnePlace` | src/main.c:304-311 | in every reachable state each accepted event is in exactly one of overflowed, queued, in hand, batched, delivered, discarded |
| `Delivery.DeliveryKeepsOrder` | src/main.c:304-311 | delivered, batched, in-hand and queued events together are in enqueue order without repeats |
| `Delivery.BatchStaysBounded` | src/output.c:113-136 | in every reachable state the batch is within batch_size; in HTTP mode its capacity is 16 doubled, at most max(16, 2 * batch_size), else there is none |
| `Delivery.AcknowledgedIsNeverPostedAgain` | src/output.c:225-288 | over a whole run no event of a request answered 2xx is in a later request |
| `Delivery.ShutdownLeavesAtMostOneIteration` | src/main.c:560-567 | when both threads have ended at most six events are left, none without a signal |
| `Delivery.SixEventsCanRemain` | src/main.c:157-161 | for every setup with room for six there is a run that leaves exactly six |
| `Delivery.DeliveryOutlivesCollector` | src/main.c:304-316 | delivery ends only under the stop flag and, without a signal, only after the collector and with the queue empty |
| `Delivery.LocalOutputIsTheRest` | src/output.c:411-431 | at the end of a run, stdout or the file and the events lost to overflow are together the accepted events but the last few (at most six, none without a signal), each in order |
| `Delivery.LocalOutputIsComplete` | src/output.c:411-431 | so without overflow the output is the accepted events in order, less at most the last six, less none without a signal |
| `Delivery.RoundsFor` | src/main.c:306-308 | the smallest number of rounds that can drain n events |
| `Delivery.DrainTerminates` | src/main.c:304-319 | with collector done and stop up, every schedule that gives delivery a computed number of moves ends it, within ceil(count / 1000) non-empty rounds |
| `Delivery.TenRoundsDrain` | src/main.c:302-308 | with the sizes of the program a full queue is drained in at most ten non-empty rounds |
| `Delivery.CollectorEnds` | src/main.c:157-161 | under the stop flag or an iteration limit every schedule with enough collector moves ends the collector |
| `Delivery.LimitedRunEnds` | src/main.c:157-161 | a run limited to n iterations ends its collector within 8n + 2 moves (that it makes all n is `Iterations.LimitedRunMakesAll`) |
| `Iterations.LimitedRunMakesAll` | src/main.c:157-161 | a collector limited to n iterations that ends without a signal has made exactly n, and enqueued between n + 2 and 5n + 2 events, exactly 5n + 2 if every metric had a value each time |
| `Iterations.LimitedRunVisits` | src/main.c:157-287 | it visits, in order, the warming-up event, the ready event, and n times cpu, memory, disk, network and internal |
| `Iterations.VisitsAreTheLog` | src/main.c:122-287 | in any run every enqueued event belongs to one such visit; warming-up, ready and internal events are enqueued at every visit, the others exactly when their metric has a value |
| `Iterations.EventsOfIterations` | src/main.c:157-287 | in every reachable state after r iterations at least r and at most 5r + 6 events have been enqueued |
| `Iterations.InterruptedSleepSendsNothing` | src/main.c:157-161 | under the stop flag a collector in its sleep or at its loop test enqueues nothing more if its sleep is interrupted |
| `HttpDelivery.DeliveredIsAcknowledged` | src/output.c:225-288 | in every reachable state in HTTP mode the delivered events are exactly those of the acknowledged requests, in request order, which is enqueue order, without repeats |
| `HttpDelivery.FriendlyPostDelivers` | src/output.c:225-288 | a post whose first deciding answer within the allowed attempts acknowledges delivers its whole batch and discards nothing |
| `HttpDelivery.HttpOutputIsTheRest` | src/output.c:432-448 | when all posts are answered so and no allocation or handle fails, a whole run in HTTP mode discards nothing: the delivered events and those lost to overflow are together the accepted events but the last few (at most six, none without a signal), each in order; without overflow the delivered events are exactly these |
| `Schedules.MainGoesOn` | src/main.c:560-570 | main never waits longer than for the threads it joins |
| `Schedules.ProgramEnds` | src/main.c:560-570 | from every reachable state that is stopping or limited, enough moves of the collector, then of main, of delivery and of main again reach the end, whatever moves come in between |
| `Schedules.FairRunEnds` | src/main.c:560-570 | after a signal, or with an iteration limit, every schedule that goes on with a computed number of rounds in which each thread moves ends the program |
| `Schedules.UnlimitedRunGoesOn` | src/main.c:157-161 | with neither, no schedule gets main past its first join |
| `Schedules.FairRunsEndExactlyWhen` | src/main.c:157-161 | after any moves: every continuation with that number of such rounds ends the program if and only if there is an iteration limit or the stop flag is up |
| `Lines.PutMaps` | src/queue.c:51-69 | enqueueing the text of an event is enqueueing its number |
| `Lines.TakeMaps` | src/queue.c:87-95 | and so is dequeueing |
| `Lines.EmitMaps` | src/output.c:411-452 | emitting the text of an event does to the texts what emitting its number does to the numbers, with the same return code |
| `Lines.ShutdownMaps` | src/output.c:467-489 | the same for the shutdown |
| `Lines.RunMaps` | src/main.c:102-322 | every run on event texts that pass the queue's size test, made of the calls of the queue and output classes, ends with the texts of the run on event numbers |
| `Lines.PrintedLines` | src/output.c:417-431 | if the texts pass the queue's size test, the lines printed when the program ends are, with those lost to overflow, the texts the collector built, in order, less at most the last six; without overflow they are exactly these |
| `Ingestion.HandlePost` | webui/server.py:240-263 | the answer to a body, and the store's log, which grows by exactly the objects the body brings, stamped, in order |
| `Ingestion.BrokenNameLosesBatch` | src/output.c:250-262 | a decodable batch that holds an event with such a broken name is answered 400: posted once, discarded as a whole, return code 0 |
| `Ingestion.PostBringsItsEvents` | webui/server.py:240-263 | a request brings all its events, in order, or none; when its answer arrives, all exactly when it acknowledges |
| `Ingestion.ServePosts` | webui/server.py:281-287 | handling in turn the requests that arrive leaves the store's log, each event stamped when its request was handled, as the `LogOf` of the theorems below |
| `Ingestion.EachArrivalBringsTheBatch` | src/output.c:225-288 | one call adds its batch to the receiver's log once for each of its requests that arrives, whatever is answered |
| `Ingestion.LogSplits` | webui/server.py:262 | whichever requests and answers get lost, the receiver's log is made up of what acknowledged requests brought and of what requests brought whose acknowledgement did not reach the client, each in order |
| `Ingestion.WebUiHoldsDelivered` | webui/server.py:262 | so in every reachable state it is made up of the delivered events, in enqueue order, and of what such requests brought |
| `Ingestion.WebUiLogIsDeliveredExactlyWhen` | src/output.c:225-288 | in every reachable state the receiver's log is exactly the delivered events, in order, each once, if and only if no request was ingested without its acknowledgement reaching the client |
| `Ingestion.WebUiGetsEverything` | src/main.c:560-567 | at the end of a run in which each call is acknowledged in time, after any failed attempts, and no allocation or handle fails: with no such request, the log and the events lost to overflow are together the accepted events but at most the last six, each in order; without overflow all of these are in the log, and nothing else exactly when there was no such request |
| `Ingestion.LostAnswerRepeatsEvent` | src/output.c:225-288 | for all settings that allow a retry, a run in which one lost answer puts the first event into the log twice, although it is delivered once |
| `Measurements.BatchIsMeantExactlyWhen` | webui/server.py:240-262 | the events ingested from a body are what its events were made from if and only if no name in it holds a quote, a backslash or a control byte; an unclean name cannot make up for itself by running over into the next event |
| `Measurements.MeasurementsArriveExactlyWhen` | src/main.c:123-288 | any device names, and anything may get lost: what acknowledged requests brought is, for every delivered event, in order and once, what the events say, if and only if all names in the delivered events are clean, and then it tells what the collector measured (type, timestamp, host as far as it fits, each number under its name); everything else in the log came with requests whose acknowledgement got lost |
| `Measurements.LogIsMeasuredExactlyWhen` | src/main.c:123-288 | so with clean names the log is what was measured if and only if no such acknowledgement got lost, and with none lost if and only if the names in the delivered events are clean |
| `Measurements.MeasurementsArePrinted` | src/output.c:417-431 | any device names: a line on stdout or in the file reads back as what the event says if and only if its names are clean, and then it tells what was measured, each number under its name |
| `Backoff.SleepIsIntendedUnlessWrapped` | src/output.c:268-280 | for each base and defined shift: the wait is min(60, base * 2^attempt) if and only if 2^32 does not divide the shifted value, and otherwise zero |
| `Backoff.ScheduleIsIntendedExactlyWhen` | src/output.c:268-280 | for one base and at most 32 retries: all waits are the intended ones if and only if 2^(33 - retries) does not divide the base |
| `Backoff.ConfigurationIsSafeExactlyWhen` | src/config.c:223-235 | of all accepted configurations exactly those with at most 32 retries and that property wait as intended whatever an undefined shift yields |
| `Backoff.ScheduleSafeUpTo21` | src/output.c:268-280 | all configurable bases get the intended schedule if and only if there are at most 21 retries, whatever longer shifts yield |
| `Backoff.Base2048SleepsZero` | src/config.c:223-235 | an accepted configuration with a zero wait |
| `Backoff.WaitsOfOneCall` | src/output.c:268-280 | the waits one call makes never exceed 60 seconds each nor 60 per retry in all; when the schedule is the intended one each is at least a second and none is shorter than the one before |
| `JsonEscape.EscapeWithin` | src/output.c:41-90 | what is written never exceeds the room |
| `JsonEscape.JsonEscapeString` | src/output.c:41-90 | for every buffer size above 0 the output is in bounds, terminated and exactly the specified text; a null input leaves an empty string |
| `JsonEscape.FillEscaped` | src/output.c:51-86 | the copying loop stops before the first character that does not fit whole |
| `JsonEscape.EscapedHasNoControls` | src/output.c:41-90 | no control byte and so no early terminator is written |
| `JsonEscape.EscapeRoundTrip` | src/output.c:41-90 | every string comes back from its escaped form, which has no bare quote |
| `JsonEscape.LongestPrefixIsKept` | src/output.c:41-90 | the written text is the escaped form of the longest input prefix that fits |
| `JsonEscape.TruncatedEscapeRoundTrip` | src/output.c:41-90 | whatever was cut, the text is a complete string body and decodes to that prefix; no longer prefix would fit |
| `JsonEscape.RoomForEverything` | src/output.c:41-90 | a buffer of more than six bytes per character loses nothing |
| `JsonEscape.EscapeWithinIsUtf8` | src/output.c:41-90 | the written text is valid UTF-8 exactly when the kept prefix is; for valid input, exactly when the cut falls between two characters |
| `Utf8Text.ConcatIsValid` | webui/server.py:242 | text that does not begin with a continuation byte can be judged apart from what is before it |
| `Utf8Text.CutIsValid` | webui/server.py:242 | a cut of valid UTF-8 is valid exactly between two characters |
| `Utf8Text.ValidExactlyWhenEncoded` | webui/server.py:242 | the bytes the decoder accepts are exactly the encodings of sequences of character codes |
| `HttpBody.BodyLengthIsOneMore` | src/output.c:199-204 | the allocated length is the body's length and one spare byte besides the terminator |
| `HttpBody.StrCat` | src/output.c:209-217 | appends in bounds behind the terminator it finds |
| `HttpBody.BuildBody` | src/output.c:195-217 | the buffer holds exactly `[`, the items with commas between, `]`, within its allocation |
| `HttpBody.ReceiverGetsTheBatch` | webui/server.py:240-262 | if each item is one JSON object: when all items are valid UTF-8 the receiver ingests exactly these objects in order, and when one is not it does not answer |
| `HttpBody.ListIsAnswered` | webui/server.py:251-262 | of any list exactly the objects are ingested, in order, and answered 200; a list without one is answered 400 |
| `HttpBody.OtherBodiesAreAnswered` | webui/server.py:242-259 | undecodable bytes get no answer, a single object is ingested, anything else is answered 400 |
| `HttpBody.BatchIsIngestedOrLost` | src/output.c:225-288 | sent to this receiver, a batch is delivered by one post if all its items are valid UTF-8, and otherwise posted retry_max_attempts + 1 times and discarded as a whole |
| `JsonCompose.ArrayReads` | src/output.c:209-217 | a bracketed, comma-joined list of readable values is read as the list of their values |
| `JsonCompose.ArrayIsUtf8` | src/output.c:209-217 | a joined list is valid UTF-8 exactly when each item is |
| `JsonCompose.ObjectIsUtf8` | src/main.c:244-253 | an object text is valid UTF-8 exactly when its names and values are |
| `MetricEvents.EntryLength` | src/main.c:247-252 | no printed entry is longer than 111 characters, whatever is in its name |
| `MetricEvents.HeaderLength` | src/main.c:244-246 | the text before the list stays below 1000 characters |
| `MetricEvents.Snprintf` | src/main.c:244-254 | the bounded print: what fits, a terminator, and the full length as result |
| `MetricEvents.PrintWhole` | src/main.c:248-253 | where the text fits, all of it is appended and the position moves by its length |
| `MetricEvents.AppendEntry` | src/main.c:248-251 | from below the cut-off one more entry always fits whole, whatever is in its name, and `pos` is the text's length |
| `MetricEvents.FillListEvent` | src/main.c:244-254 | the closing brackets always fit; the loop stops at the list's end or at 1536 characters, not earlier or later |
| `MetricEvents.BuildListEvent` | src/main.c:242-270 | for every list and any names the 2048-byte buffer holds a complete event over a prefix of the list; with clean names a JSON reader reads it back |
| `MetricEvents.EnvelopeReads` | src/main.c:26-42 | the fixed fields are read back; the host is the longest prefix of the name that fits escaped |
| `MetricEvents.HostShownIsLongest` | src/main.c:26-42 | the host in an event is the longest prefix of the name of at most 127 characters whose escaped form has at most 255 |
| `MetricEvents.EntriesRead` | src/main.c:248-253 | entries with clean names are read back as their names and two numbers |
| `MetricEvents.ListEventReads` | src/main.c:242-270 | with clean names parsing the event gives the type, timestamp, host and exactly the listed entries |
| `MetricEvents.EnvelopeLength` | src/main.c:139-141 | the fixed fields take exactly 126 characters besides event type, timestamp and escaped host |
| `Events.EventIsAccepted` | src/main.c:131-142 | every event, of all seven types, fits its buffer (512, 1024 or 2048 bytes) whole, holds no NUL and passes the queue's size test |
| `Events.BuildFixedEvent` | src/main.c:227-240 | one bounded print puts the whole event into its buffer of 512 or 1024 bytes, nothing is cut, and a JSON reader gets a value that tells what was measured, each number under its name |
| `Events.EventReads` | src/main.c:227-287 | every event reads back as its envelope and its payload of named numbers; the list events if and only if their names are clean |
| `Events.MeaningTells` | src/main.c:227-287 | what every event reads back as tells what was measured, by names and values written out for each of the seven types: event type, time, host, and every number under its name, percentages to a tenth |
| `Events.EventTells` | src/main.c:227-287 | so parsing the text of an event with clean names gives a value that tells what was measured |
| `Events.EventDecodes` | src/main.c:227-287 | every event is valid UTF-8 exactly when the timestamp, the host as shown and the names in it are |
| `Events.TenthsIsNumeral` | src/main.c:228-230 | a percentage printed with one decimal is a JSON number |
| `RawNames.RawStringEnds` | src/main.c:249-251 | what a reader can take an unescaped name for: something shorter, the name itself if it is clean, or a text that runs into the next field |
| `RawNames.ReadsBackExactlyWhenClean` | src/main.c:242-270 | the event reads back as its list if and only if every name is clean |
| `RawNames.ReadsOnlyWhenClean` | src/main.c:242-270 | whatever text follows the event: if its list is what is read, every name is clean |
| `RawNames.QuoteInNameBreaksEvent` | src/main.c:262-267 | an interface name with a quote is an example: its event is no JSON at all |
| `RawNames.EntryIsNoJson` | src/main.c:249-251 | an entry whose name is a clean text, a quote, and then anything but a blank, a comma or a closing brace, is no JSON value, whatever follows it |
| `RawNames.EventIsNoJson` | src/main.c:242-270 | nor is an event whose first unclean name is such a name |
| `RawNames.BodyIsNoJson` | src/output.c:209-217 | nor is a request body in which such an event follows any whole objects |
| `Receivable.EventIsUtf8` | src/main.c:242-270 | the event is valid UTF-8 exactly when the timestamp, the host as shown and every name are |
| `Receivable.HostStaysUtf8` | src/main.c:26-42 | a valid host name stays valid exactly when neither buffer cuts one of its characters |
| `Receivable.LatinHostIsLost` | src/config.c:182-184 | the host name 0xE9 alone: its events are JSON to a reader of bytes, and the receiver answers no batch that holds one |
| `Receivable.LongHostIsSplit` | src/config.c:182-184 | a valid value of 126 ASCII characters and one two-byte character is cut inside that character by the config field, so its events do not decode |
| `Receivable.EscapedHostIsSplit` | src/main.c:28-41 | a valid host name of 45 bytes that fits every field is cut inside its last character by the room for its escaped form |
| `ConfigText.TrailerIsStripped` | src/config.c:85-109 | blanks at the end are trimmed away, and a comment where the line takes one is cut off |
| `ConfigText.CommentIsStrippedExactlyWhen` | src/config.c:85-109 | a comment is removed if and only if the text before it closes its quotes or is cut before its end anyway |
| `ConfigText.CommentIsIgnoredExactlyWhen` | src/config.c:343-381 | a comment leaves what a line says unchanged if and only if that holds, or the line is refused for its indentation anyway, or for its missing colon and the comment brings none |
| `ConfigText.TrailerBeforeNewlineIsIgnored` | src/config.c:343-381 | such a trailer does not change what a whole line says |
| `ConfigText.BlankOrCommentIsSkipped` | src/config.c:343-347 | blank and comment-only lines say nothing |
| `ConfigText.UnbalancedKeepsComment` | src/config.c:94-105 | after an odd number of quotes and no earlier comment, whatever is appended without a quote stays part of the text |
| `ConfigLines.CutIsFirstComment` | src/config.c:85-109 | a line is cut at its first comment sign that is outside quotes and at the start or behind a white character, and trimmed there |
| `ConfigLines.WrittenLine` | src/config.c:343-381 | a key and a value, plain or quoted, at the left margin or indented by two spaces, with any spaces and tabs around the colon and at the end, are read as this key and value |
| `ConfigLines.LineIsRefused` | src/config.c:349-372 | a line with any other indentation is refused, and so is a line without a colon |
| `ConfigKeys.ParseIntExactlyWhen` | src/config.c:144-161 | a number is taken if and only if the text is white space, a sign or none, and at least one digit, and nothing else, and the value is in range; nothing is clamped |
| `ConfigKeys.IntervalLine` | src/config.c:174-180 | `poll_interval_seconds` stores the number if it is from 1 to 86400, and otherwise loading stops at the line with the config unchanged |
| `ConfigKeys.BatchSizeLine` | src/config.c:209-215 | the same for `batch_size`, 1 to 100000 |
| `ConfigKeys.BatchIntervalLine` | src/config.c:216-222 | the same for `batch_interval_seconds`, 1 to 86400 |
| `ConfigKeys.RetryMaxLine` | src/config.c:223-229 | the same for `retry_max_attempts`, 0 to 100 |
| `ConfigKeys.RetryBackoffLine` | src/config.c:230-236 | the same for `retry_backoff_seconds`, 0 to 3600 |
| `ConfigKeys.TopLevelLine` | src/config.c:383-402 | at the left margin: only version 1.0, a host of 127 characters, headers without a value; any other key is refused, and every key but a header ends the section |
| `ConfigKeys.NoSectionLine` | src/config.c:404-407 | an indented key outside a section is refused |
| `ConfigKeys.OutputLine` | src/config.c:191-244 | output types, and texts of 255 characters; other keys are refused |
| `ConfigKeys.CollectLine` | src/config.c:246-281 | flags are true or false, which is checked before the key; `load` is ignored, other keys are refused |
| `ConfigKeys.LogLine` | src/config.c:283-308 | levels, destinations and a path of 255 characters; other keys are refused |
| `ConfigKeys.RefusedLineIsLast` | src/config.c:336-422 | loading stops at the first refused line, with the config as it was before it |
| `ConfigLoad.ChunkLength` | src/config.c:336 | a read takes at least one character and at most 1023 |
| `ConfigBuffer.SkipBlanks` | src/config.c:58-64 | the moved pointer reads the left-trimmed text |
| `ConfigBuffer.CutBlanks` | src/config.c:66-83 | in place: the pointer reads the right-trimmed text, nothing outside it changes |
| `ConfigBuffer.CutComment` | src/config.c:85-109 | in place: the text up to its comment, trimmed |
| `ConfigBuffer.DropQuotes` | src/config.c:111-126 | in place, overlapping move: the text without one pair of surrounding quotes |
| `ConfigBuffer.FindColon` | src/config.c:368 | the first colon |
| `ConfigBuffer.TakeBoth` | src/config.c:374-381 | trimming and unquoting the key in place leaves the value behind it intact |
| `ConfigBuffer.ParseHere` | src/config.c:343-381 | the whole in-place treatment of a line says what the line says as plain text |
| `ConfigBuffer.Fgets` | src/config.c:336 | the rest of the line or 1023 characters of it, terminated, in bounds |
| `ConfigBuffer.Dispatch` | src/config.c:383-421 | the branch on indentation and section |
| `ConfigBuffer.LoadConfigFile` | src/config.c:310-434 | the loop with its reused buffer loads every file, of any bytes, as the fold over its lines: same config, same first error, same line number |
| `ConfigLayout.LoadConcat` | src/config.c:336-422 | loading lines in two parts continues from the config and section of the first |
| `ConfigLayout.SameMeaningLoadsAlike` | src/config.c:336-422 | lines that say the same load the same config, section and first problem |
| `ConfigLayout.FileLinesOfPlainLines` | src/config.c:336 | a file of lines below 1023 characters is read back line by line |
| `ConfigLayout.EndedIsAligned` | src/config.c:336 | after a text that ends with a newline a read starts afresh, however long its lines |
| `ConfigLayout.FileLinesConcat` | src/config.c:336 | two texts joined where a read ends are read one after the other, however long their lines |
| `ConfigLayout.LoadFilesInTurn` | src/config.c:310-434 | loading joined files is loading the second from where the first ended, so the last assignment wins |
| `ConfigPieces.PieceEndIsMultiple` | src/config.c:336 | the piece that holds position i ends at 1023 * (i / 1023 + 1) |
| `ConfigPieces.SilentComment` | src/config.c:343-347 | for any reading of pieces: a comment line says nothing if it ends with the piece that holds its sign |
| `ConfigPieces.TrailerSaysNothing` | src/config.c:85-109 | for any reading of pieces and lines of any length: blanks, and comments that end with the piece in which they start, do not change what a line says |
| `ConfigPieces.OverlongTrailer` | src/config.c:336 | for any reading of pieces: what is behind that piece is read as a line of its own |
| `ConfigComments.SaysIsLawful` | src/config.c:336-381 | fgets with the treatment of one line is such a reading |
| `ConfigComments.InsignificantExactlyWhenSilent` | src/config.c:336-422 | a text can be left out anywhere in any file, for every initial config, if and only if it says nothing |
| `ConfigComments.CommentLineBound` | src/config.c:336-347 | the comment lines of k leading blanks and m characters in all are insignificant if and only if m <= 1023 * (k / 1023 + 1) |
| `ConfigComments.CommentLinesUpTo1023` | src/config.c:336-347 | all comment lines of n characters are insignificant if and only if n <= 1023 |
| `ConfigComments.TrailerBound` | src/config.c:85-109 | behind a line that some config loads, the comments after k blanks and of m characters in all are insignificant if and only if they end with the piece in which they start |
| `ConfigComments.CommentTailIsRead` | src/config.c:336 | a comment line is as good as the line that stands behind its first 1023 characters |
| `ConfigComments.CommentCanAssign` | src/config.c:336 | for example an assignment there is carried out without error |
| `ConfigComments.LastNewlineDoesNotMatter` | src/config.c:336 | a file loads alike with and without a newline at its end |
| `ConfigComments.TrailersDoNotMatter` | src/config.c:85-109 | adding blanks of any length, or comments within these bounds, to the lines of a file changes at most line numbers in errors; if every line still fits one read, nothing at all |
| `ConfigComments.InsertedLinesDoNotMatter` | src/config.c:343-347 | inserting blank lines of any length, or comment lines within these bounds, anywhere in any file changes at most line numbers in errors |
| `ConfigRoundTrip.QuotedValueIsNotCut` | src/config.c:85-109 | a value in quotes hides comment signs |
| `ConfigRoundTrip.EntryLineParses` | src/config.c:343-381 | a printed line says its key and value, with any `#`, `:` and edge blanks in it |
| `ConfigRoundTrip.ItemsRebuild` | src/config.c:163-308 | the printed assignments over the defaults rebuild the config |
| `ConfigRoundTrip.PrintThenLoad` | src/config.c:310-434 | any config in range, printed under its sections and loaded over the defaults, comes back unchanged and without error |
| `ConfigChecks.LoadedIsWellFormed` | src/config.c:163-308 | any file, even one that stops at an error, leaves every field in its documented range and size |
| `ConfigChecks.FittedTextIsUtf8` | src/config.c:182-184 | a field keeps valid UTF-8 valid exactly when its size cuts no character |
| `ConfigChecks.ValidationFailsExactlyWhen` | src/config.c:436-489 | after loading, validation fails exactly for a file type without path, or http_post without url, batch size or interval |
| `ConfigChecks.Init` | src/output.c:308-404 | whatever the config, an output that starts has positive batch limits and, in file mode, an open file |
| `ConfigChecks.StartIs` | src/output.c:308-404 | how every config starts or fails, and with which settings: each number as configured, or 50, 2, 5 and 1 where it is unset or negative |
| `ConfigChecks.RetryFallbacksAreUnused` | src/output.c:319-322 | for loaded configs the fallbacks 5 and 1 are never used, and 50 and 2 exactly for unset fields |
| `ConfigChecks.EmptyFileStarts` | src/config.c:310-434 | an empty file loads, validates and starts on stdout, with batches of 50 and 2 seconds and no retries |
| `ConfigChecks.ValidatedConfigStarts` | src/output.c:308-404 | a validated config starts unless the file, libcurl or memory fails, and then has positive batch limits |
| `ConfigChecks.StartsButDoesNotValidate` | src/output.c:308-404 | in any environment, exactly which loaded configs start without being valid: http_post with an empty url supplied by the environment, or with batch size or interval unset |
| `Rates.StatsBuffer.FindIndex` | src/network.c:6-15 | the index of the first entry with the name, -1 exactly if there is none (also find_disk) |
| `Rates.StatsBuffer.Compute` | src/network.c:95-130 | the in-place loop fills exactly the specified rates for interfaces (unit 1) and disks (unit 512); a non-positive interval changes nothing |
| `Rates.ReportedOnce` | src/disk.c:127-162 | a device listed once gets one rate, and only if both snapshots list it |
| `Rates.RatesAddUpToIncrements` | src/main.c:200-214 | over any run, rates times interval add up to the positive counter increments between consecutive good snapshots, across failed reads and resets |
| `Rates.IncrementsTelescope` | src/main.c:200-214 | with counters that never go back these increments are last minus first |
| `Rates.RatesTelescope` | src/main.c:200-214 | so over a whole run rates times interval give last minus first counter, times the unit |
| `Rates.DiskRatesTelescope` | src/disk.c:137-159 | for disks, in bytes: 512 times the sectors |
| `EventStore.Store.constructor` | webui/server.py:33-40 | an empty store |
| `EventStore.Store.Ingest` | webui/server.py:42-52 | after any batches: history is the newest max_events of the full log, the index holds the last event of each type, and the counters count (its `Valid`); events without a stamp are stamped, others keep theirs |
| `EventStore.StampsAreKept` | webui/server.py:47-48 | a stamp that is there is kept, a missing one is set, nothing else changes |
| `EventStore.Store.IngestOne` | webui/server.py:47-52 | one event does the same |
| `EventStore.Store.History` | webui/server.py:84-91 | the newest `limit` entries, taken to be from 1 to 2000, of the newest max_events of everything ever ingested; if a type is asked for, entries of that type at increasing places, as many as there are or the limit, and none left out is newer than those |
| `EventStore.OfTypeIsTheMatches` | webui/server.py:88 | the filter returns exactly the matching events, none more often than it is there |
| `EventStore.NewestAgreesWithIndex` | webui/server.py:84-91 | `history(t, 1)` is `[latest[t]]` if and only if that event carries its type and is still in the history |
| `EventStore.NothingOfTypeKept` | webui/server.py:84-91 | once a type's newest event is pushed out none of the type is left |
| `EventStore.UntypedEventIsNotFound` | webui/server.py:49 | an event without a type is indexed under "unknown" and not found there |
| `TopProcesses.CpuPct` | src/process.c:274-285 | a percentage between 0 and 100 |
| `TopProcesses.SortDescending` | src/process.c:187-213 | descending by the chosen key, and a permutation |
| `TopProcesses.ProcessReader.Fill` | src/process.c:247-293 | the scan fills the list in order, up to 2048 |
| `TopProcesses.ProcessReader.SortAndCut` | src/process.c:297-305 | sorting in place and dropping the tail leaves the top min(limit, n) of what was scanned |
| `TopProcesses.ProcessReader.ReadList` | src/process.c:215-313 | the list is the top min(limit, n) of all scanned processes, nothing omitted beats anything kept; the tick table records all of them; failures and non-positive limits leave it alone |
| `TopProcesses.PrefixIsTop` | src/process.c:297-305 | cutting a sorted list keeps its top |
| `TopProcesses.TopIsGreatest` | src/process.c:187-213 | by memory or by CPU share, greatest first, and nothing left out is greater |
| `TopProcesses.PercentageIs` | src/process.c:247-293 | what a scan after another one reports of a process: its pid, name and memory, and in percent the share of the time between the scans that it took, 0 if it is new, went back or no time passed, at most 100 |
| `TopProcesses.RememberedTicks` | src/process.c:81-92 | the ticks remembered for a pid are those of the first scanned process with it |
| `TopProcesses.TableIsOfLastScan` | src/process.c:229-242 | over any calls the tick table is that of the last call that scanned; failed calls and calls for zero processes leave no trace |
| `TopProcesses.PercentagesIgnoreLimitsAndOrder` | src/process.c:307-310 | later percentages do not depend on earlier positive limits or sort modes |
| `TopProcesses.ZeroLimitChangesPercentages` | src/process.c:229-231 | they do depend on whether an earlier limit was positive |

## Left out

- Reading `/proc`, libcurl, files, sockets and pthread internals: inputs or atomic steps. Failures to create the queue or a thread are not modelled.
- The C memory model: the stop flag is one sequentially consistent word that never goes back to 0.
- The condition variable, entry timestamps and 64-bit counter wrap-around of the queue; counters are unbounded.
- Ownership and freeing of strings: batch items are values, a freed slot becomes empty.
- The values the collector reports: `Events.dfy` takes any percentages in tenths up to 1000, any 64-bit counters and any list entries; which count `events_emitted_total` holds is not modelled. The pipeline numbers events, `Lines.dfy` and `Ingestion.dfy` attach any texts that pass the queue's size test, `Measurements.dfy` the events of `Events.dfy`.
- `format_rfc3339`, `gethostname`: the timestamp is any text of at most 63 characters without quotes, backslashes and control bytes, the host name any NUL-free text.
- Rounding of `%.0f` and `%.1f` and floating-point arithmetic: printed rates are whole numbers of at most 22 digits, printed percentages whole tenths, computed rates are reals.
- C strings are sequences of characters, one per byte; a `\u` escape above 0x7F is encoded in UTF-8 by the reader, each half of a surrogate pair by itself.
- Errors of stdout and file writes; the text of messages (config errors are values with a line number); reading the config from stdin.
- The `set_*` functions write one field each; in `ConfigLoad.dfy` they are functional updates of a record, and only the line buffer is modelled in place.
- OutputState.Output.ShutdownOutput: closing the file, cleaning up libcurl and zeroing the settings are not modelled; nothing is emitted afterwards.
- Ingestion.HandlePost: how Python's dict of a JSON object shows its type and stamp to the store is a parameter; paths, the content length and empty bodies are left out, as is what a client does besides posting.
- Ingestion.ServePosts: a request arrives whole or not at all, and the requests are handled in the order in which they are made; the server's threads could ingest a request whose answer timed out after the retry that follows it. An acknowledgement is taken to be the receiver's own, for a request that it ingested; any other answer may be made up on the way.
- Backoff.WaitsOfOneCall: the waits are those asked for; a signal can cut a `sleep` short.
- HttpBody.ReceiverGetsTheBatch: of the body encodings `json.loads` detects only UTF-8 is modelled, which is what it takes a NUL-free text starting with `[` for; NaN and Infinity, which it also reads, are no JSON here, and its recursion limit is left out.
- ConfigBuffer.TakeField: trims and unquotes the key before the value is trimmed, while the code trims both before it unquotes both; the two texts do not overlap.
- TopProcesses.SortDescending: stands for the library's `qsort` with either comparison, so ties may fall either way; its own loop is a selection sort.
- Rates.StatsBuffer.Compute: one method for both sources, which differ only in names and in the factor 512.
- Backoff.SleepIsIntendedUnlessWrapped: for shift counts of 32 and more, which C leaves undefined, the wait is arbitrary and nothing is claimed.
- Environment overrides (except that one can supply the receiver's url to `output_init`), the authorization header's text, argument parsing, logging, the dashboard, the other HTTP paths, health and demo data of the web UI.
- `src/cpu.c`, `src/memory.c`, `src/utils.c`: single-expression deltas, clamps and trims.
