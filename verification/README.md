# Telemetry collector: verified model of the ingestion pipeline

This project models how the collector takes in telemetry events and proves what the code keeps
over every run. The main subject is the asynchronous pipeline: any number of `Submit` calls check
and mark an event with the deduplicator and send it into a bounded channel; workers receive events
and batch them; timer callbacks race the workers for the batcher's lock; a flush fans a batch out
to the storage plugins while the lock is held; `Shutdown` closes the channel and waits for the
workers, or gives up and cancels them.

`dafny verify dfyconfig.toml` checks the whole project.

## Layout

- `Pipeline.dfy` is the transition system. A state holds the channel, the workers, the `Submit`
  calls, the deduplication cache, the counters, the clock and the progress of `Shutdown`; an action
  is one atomic step of one goroutine; a run is any interleaving of possible actions.
  `Workers.dfy` holds the steps of one worker with its batcher, lock, running flush and timers.
- `Flow.dfy`, `Delivery.dfy`, `Accounting.dfy`, `SubmitProtocol.dfy`, `DedupWindow.dfy`, `CacheLaw.dfy`
  and `Drain.dfy` prove what holds at every reachable state: conservation and order, memory, timers,
  delivery to the plugins, both ways of shutting down, the counters, the order of the steps of a
  `Submit`, deduplication, and termination of the drain.
- `TimelyFlush.dfy`, `EarlyFlush.dfy`, `Backpressure.dfy`, `ForcedShutdown.dfy`, `CallFates.dfy` and
  `Race.dfy` say what can happen and what cannot: how pending events get flushed and that a flush that
  is due is not skipped, which configurations allow an early flush, when a blocked event can still
  be sent, what a forced shutdown can lose, what can become of a late `Submit`, and when the
  deduplication race can be lost.
- `Batcher.dfy` (a class over a reused array), `TtlCache.dfy` (a class over a mutated map) and
  `Processor.dfy` (filter loop, fan-out, worker loop) are the imperative forms of the source's
  objects. They are proved against the value-level functions of `Batching.dfy`, `Schedules.dfy`,
  `TtlCache.dfy` and `FanOut.dfy`. `Sections.dfy` proves that the critical sections of the transition
  system do to a batcher what these functions do.
- `Events.dfy`, `Backoff.dfy`, `Base64Url.dfy`, `Token.dfy` and `Postgres.dfy` are sequential parts:
  deduplication keys, retry delays, the token payload and the statement builder.

## Reading the model

- Steps are as fine as the source allows. A timer fires in one step and its callback takes the lock
  in a later one, so `Stop` may come too late; between an append that fills a batch and its flush
  other goroutines run; a plugin goroutine calls `WriteBatch` in one step and returns in another;
  the counters of `Submit` are separate steps after the send.
- A `Submit` that found the channel full is `Blocked` on its way into the second select and `Parked`
  once it waits there. Closing the channel makes a parked call panic; only a call that has not parked
  yet can still see the cancelled context and be dropped.
- `Submit` may overlap `Shutdown` in the model. A send on the closed channel then ends the call as
  panicked; the source's process would stop there, so the model only has more runs. The flag
  `overlapped` records that such an overlap took place. It can: the application shuts its processors
  down without stopping its servers first (internal/app/app.go:144-166).
- An unbuffered channel is covered: an event can pass straight to a worker at its select.
- A batch size of 0 behaves like 1, as in the source. Sizes, intervals and times are naturals.
- `sent`, `taken`, `flushed`, `writes`, `returned`, the instants of a call and `overlapped` are history. No step
  reads them.
- Where documents and code differ the code is followed. README.md:101 promises that no in-flight data
  is lost on shutdown. That is true of the graceful path with a worker
  (`Delivery.GracefulShutdownDrains`; pkg/config/config.go:157 refuses a configuration without workers, so only
  a direct call of `NewProcessor` gets to `Delivery.NoWorkersNoDrain`). It is false of the timeout
  path. What is left in the channel after the workers have gone can be every suffix of what was
  queued when `Shutdown` was called, and nothing else (`ForcedShutdown.QueuedLossesExactly`). `Shutdown`
  does not wait for the workers on this path: it returns its error with the queued events and those
  still in hand, pending or in flight unprocessed (`ForcedShutdown.UnprocessedIsQueuedOrHeld`,
  `ForcedShutdown.ErrorReturnExactly`), and the application then closes the plugins
  (internal/app/app.go:144-166), so that the writes of workers still running can fail. The model
  counts such an event as processed, as the source does.
- README.md:99 promises that no event waits longer than the flush interval: the timer is due by then,
  but its callback may wait for the lock, so the model proves the deadline of the timer, and that
  letting the clock run to it suffices for a flush, and not a latency. The comment at
  pkg/processor/batcher.go:79 says that the callback runs when the flush interval is exceeded; a
  callback that `Stop` came too late for can flush a younger batch before that, exactly as
  `Delivery.EarlyFlushExactly` and `EarlyFlush.EarlyFlushPossibleExactly` say.
- DESIGN.md shows an older batcher that flushed asynchronously.

## Model

| member | source | states |
|---|---|---|
| `Events.KeyReadsBack` | pkg/events/user_behavior.go:24-34 | The key of any event without ':' in its first three fields, cut at its first four separators, gives the kind, the namespace, the user id, the event id and the timestamp or session id, in this order, and nothing else does |
| `Events.KindsNeverCollide` | pkg/events/performance.go:31 | Keys of events of different kinds differ, whatever the fields hold |
| `Events.KeysAgreeExactlyOnFields` | pkg/events/gameplay.go:24-32 | Two events of any kinds without ':' in namespace, user id and event id share a key if and only if they are of one kind and agree on these fields and on the timestamp or session id, nil payloads and contexts counting as empty |
| `Events.SessionsSeparateKeys` | pkg/events/user_behavior.go:24-34 | Two user behaviour events with payload and context share a key if and only if namespace, user id, event id and session id are equal |
| `Events.TimestampsSeparateKeys` | pkg/events/performance.go:24-32 | Two gameplay or two performance events with payload share a key if and only if namespace, user id, event id and timestamp are equal |
| `Events.AbsentCountsAsEmpty` | pkg/events/user_behavior.go:25-32 | A nil payload gives the key of one with empty fields, and a nil context that of one with an empty session id |
| `Events.UniquelyKeyedExactlyWhenColonFree` | pkg/events/gameplay.go:31 | Among all identities, a key belongs to one identity only if and only if none of its fields, the last included, holds ':'; otherwise another identity with the same key is constructed |
| `TtlCache.HeldExactly` | pkg/dedup/memory.go:45-103 | For every history of marks and sweeps under a clock that does not run backwards: a key is in the cache if and only if its last mark had not expired at the last sweep, and it is stored under the time of that mark |
| `TtlCache.FreshKeysAreHeld` | pkg/dedup/memory.go:45-53 | Every key marked within the window is reported as known |
| `TtlCache.StaleAnswersExactly` | pkg/dedup/memory.go:45-53 | A lookup differs from the ideal window if and only if the last mark has expired and no sweep has run since it expired |
| `TtlCache.SweepRestoresTheWindow` | pkg/dedup/memory.go:84-95 | Right after a sweep the cache holds exactly the keys whose last mark is within the window |
| `TtlCache.MemoryDeduplicator.IsDuplicate` | pkg/dedup/memory.go:45-53 | The lookup answers from the whole history, by the condition above, and changes nothing |
| `TtlCache.MemoryDeduplicator.Mark` | pkg/dedup/memory.go:56-64 | The map gets the key with the current time and the object stays a replay of its history |
| `TtlCache.MemoryDeduplicator.RemoveExpired` | pkg/dedup/memory.go:84-103 | The deleting loop over the map leaves exactly the fresh keys, each with its time unchanged |
| `TtlCache.MemoryDeduplicator.Close` | pkg/dedup/memory.go:106-115 | The cache is emptied and the cleanup goroutine stopped |
| `Batching.BatcherRefinesChunking` | pkg/processor/batcher.go:36-92 | For every sequence of adds, flushes, timer firings and timeouts: flushed batches followed by pending events are the added events in order, batch sizes lie between 1 and the batch size, and the buffer is never full between operations |
| `Batching.ShortBatchesAreCut` | pkg/processor/batcher.go:36-92 | For every sequence of operations: each flushed batch has exactly the batch size, or is exactly what was pending before a manual flush or a timeout |
| `Batching.OpCuts` | pkg/processor/batcher.go:36-92 | What each operation does, in plain terms: an add appends and cuts off a batch only when full, a flush and a timeout cut off all that is pending as one batch, nothing when nothing is, and a firing moves no event |
| `Batching.OpTimers` | pkg/processor/batcher.go:43-65 | From every state with the timer invariant: an add starts a timer only for the first event of a batch, a cut leaves no timer armed, a callback that has fired waits until its own timeout |
| `Batching.AddsAloneChunkExactly` | pkg/processor/batcher.go:36-52 | n adds alone give n / size batches of exactly the batch size and leave n % size events |
| `Batching.AppendKeepsTimerInv` | pkg/processor/batcher.go:41-46 | Appending keeps: events are pending if and only if there is a timer, due maxWait after the oldest of them, and no other timer is armed |
| `Batching.DetachKeepsTimerInv` | pkg/processor/batcher.go:61-72 | A flush leaves no timer armed, even if the stopped timer had fired or belongs to the running callback |
| `Batching.TakeKeepsTimerInv` | pkg/processor/batcher.go:80-83 | A callback that gets the lock, its own timer's or a stale one, keeps the timer invariant |
| `Batching.StaleCallbackFlushesEarly` | pkg/processor/batcher.go:62-65 | A run in which a callback that Stop could not recall flushes a younger batch whose own timer is armed and not due |
| `BatcherClass.Batcher.constructor` | pkg/processor/batcher.go:25-32 | A new batcher has an empty buffer of the configured capacity and no timer |
| `BatcherClass.Batcher.Grow` | pkg/processor/batcher.go:41 | Append writes in place or reallocates, and never touches a slice handed out before |
| `BatcherClass.Batcher.Add` | pkg/processor/batcher.go:36-52 | The buffer grows by the event, or, if that makes it full, is emptied and handed over as a freshly allocated slice; slices handed over earlier keep their contents; the effect is that of the value-level add |
| `BatcherClass.Batcher.FlushLocked` | pkg/processor/batcher.go:56-77 | The flush hands over a fresh copy of the pending events, stops the timer and truncates the reused buffer |
| `BatcherClass.Batcher.TimeoutFlush` | pkg/processor/batcher.go:80-84 | After the callback nothing is pending, it no longer waits, and exactly the old buffer was handed over as one fresh slice, or nothing if it was empty |
| `BatcherClass.Batcher.Flush` | pkg/processor/batcher.go:88-92 | After the manual flush nothing is pending, and exactly the old buffer was handed over as one fresh slice, or nothing if it was empty |
| `BatcherClass.Batcher.Size` | pkg/processor/batcher.go:95-99 | The size is the number of pending events, below the batch size |
| `FanOut.CallsCarryTheAcceptedEvents` | pkg/processor/processor.go:162-183 | Over any list of batches the calls of a plugin, concatenated, are the accepted events in order |
| `FanOut.NoCallIsEmpty` | pkg/processor/processor.go:171-176 | No plugin is called with an empty list, and at most once per batch |
| `ProcessorClass.Processor.WriteToPlugin` | pkg/processor/processor.go:162-200 | The filter loop makes one WriteBatch call on the accepted events, or none if there are none, whatever the outcome |
| `ProcessorClass.Processor.ProcessBatch` | pkg/processor/processor.go:135-159 | For every order in which the plugin goroutines run and every pattern of write failures, each plugin gets its own call exactly as often as it is listed, and the processed counter rises by the full batch length |
| `ProcessorClass.Processor.Worker` | pkg/processor/processor.go:95-132 | Under every finite schedule of arrivals, receives, timer firings and timer callbacks, ended by a cancelled context or by a closed channel: the batches are the ones the schedule prescribes; with what is left in the channel they are the events that were there or arrived, in order; a closed channel is emptied and a cancelled worker leaves what is queued; counter and plugin calls are exactly those of the batches |
| `Schedules.TurnDoes` | pkg/processor/processor.go:110-131 | For every schedule and one more turn: a receive takes the head of a queue that is not empty and cuts off a batch only if that makes it full; a timer that is armed and due fires; a callback that waits leaves nothing pending, having cut off exactly what was; an arrival only queues |
| `Schedules.BatchesHoldReceived` | pkg/processor/processor.go:110-131 | The batches a schedule prescribes hold exactly the events received, in order, none is empty or too long, and nothing stays pending |
| `Schedules.OnlyTheLastBatchIsShort` | pkg/processor/batcher.go:48-51 | If no callback gets a turn, every batch but the last has exactly the batch size |
| `FanOut.ListedOnce` | pkg/processor/processor.go:142-153 | The calls of a plugin that is listed once are those of the transition system, and a plugin that is not listed gets none |
| `Workers.StepKeepsWorkerInv` | pkg/processor/processor.go:110-159 | Every step of a worker, its flushes, plugin goroutines, timers and callbacks keeps the lock, size, timer and delivery invariants |
| `Workers.StepKeepsStream` | pkg/processor/batcher.go:41-76 | No such step loses, duplicates or reorders an event, and only the end of a flush counts events as processed |
| `Workers.BacklogBound` | pkg/processor/batcher.go:36-84 | A worker holds at most one full batch in hand, pending and in flight together |
| `Workers.StepCostsWork` | pkg/processor/batcher.go:56-92 | Every such step uses up work |
| `Workers.HolderCanStep` | pkg/processor/batcher.go:74-76 | Whoever holds the batcher lock can move on, provided WriteBatch returns |
| `Flow.RunKeepsFlow` | pkg/processor/processor.go:95-293 | Conservation, the channel capacity, the processed counter and the leaving rule hold after every run |
| `Delivery.SentIsInterleaved` | pkg/processor/processor.go:110-122 | At every reachable state the sent events are an order-preserving interleaving of the workers' streams followed by the channel |
| `Delivery.OneWorkerKeepsSendOrder` | pkg/processor/processor.go:110-122 | With one worker the processed batches, concatenated, are a prefix of the send order |
| `Delivery.MemoryBound` | pkg/processor/processor.go:67 | Sent events not yet counted as processed number at most the channel capacity plus workers times the batch size (at least 1 each) |
| `Delivery.FlushSizes` | pkg/processor/batcher.go:48-51 | A flush by Add has exactly the batch size, a flush by a timer callback is smaller, none is empty |
| `Delivery.NoEventIsStranded` | pkg/processor/batcher.go:43-84 | While the lock is free, events are pending if and only if there is a timer, which is armed or whose callback waits, and which is due at most maxWait after each pending event was added |
| `Delivery.EarlyFlushExactly` | pkg/processor/batcher.go:62-84 | For every reachable state in which a callback can take the lock with events pending: it flushes before the flush interval of the oldest is over if and only if the buffer's own timer is still armed and not due, which is never so for that timer's own callback |
| `EarlyFlush.EarlyFlushPossibleExactly` | pkg/processor/batcher.go:43-84 | A configuration can reach such an early flush if and only if it has a worker, a batch size of at least 2 and a flush interval above 0, whatever the channel, the plugins and the deduplicator |
| `TimelyFlush.PendingEventsGetFlushed` | pkg/processor/batcher.go:36-92 | From every reachable state with events pending at a worker, whoever holds its lock: one clock tick to the deadline of the oldest and a bounded run of lock holder, timer, callback and plugin steps flushes them all as one batch, with nothing sent, received or added on the way |
| `TimelyFlush.CallbackFlushesPending` | pkg/processor/batcher.go:79-84 | From every reachable state in which a callback, stale or not, can take the lock with events pending, a bounded run that starts with it puts all of them into the flushed batches as one batch |
| `TimelyFlush.FlushIsCertain` | pkg/processor/batcher.go:56-92 | In every run: an Add that filled the batch, a final flush with events pending, and a callback that finds events pending, stale or not, keep the lock until exactly these events are flushed as one batch |
| `Sections.AddSection` | pkg/processor/batcher.go:36-52 | The steps between taking and releasing the lock in Add, run without interruption, do to buffer and batches what the value-level add does |
| `Sections.CallbackSection` | pkg/processor/batcher.go:80-84 | The same for a timer callback and the value-level timeout |
| `Sections.FinalSection` | pkg/processor/batcher.go:88-92 | The same for the final flush of a worker, which then is gone |
| `Delivery.CallsOfOneWorker` | pkg/processor/processor.go:142-183 | At every reachable state the calls of one worker on one plugin are, in order, those of its flushed batches and possibly of the one in flight; none is empty |
| `Delivery.NoCallOutlivesItsFlush` | pkg/processor/processor.go:142-153 | At every reachable state at most one call of a worker on a plugin has not returned, and with no flush in flight every WriteBatch call that was made has returned |
| `Delivery.NothingIsHandedTwice` | pkg/processor/processor.go:162-183 | At every reachable state no plugin was handed an event it rejects, or any event more often than it was sent |
| `Delivery.ExitedWorkersLoseOnlyQueuedEvents` | pkg/processor/processor.go:124-129 | Once all workers have exited, forced or not: sent events are the processed ones followed by the channel, nothing is pending or in flight, and each plugin was handed each accepted event that left the channel exactly as often as it was sent |
| `Delivery.GracefulShutdownDrains` | pkg/processor/processor.go:258-278 | After Shutdown returned nil all workers have exited, nothing is in flight, and everything sent is processed if and only if there was a worker or nothing to process; with a worker every plugin got exactly the events it accepts |
| `Delivery.ForcedShutdownCanLoseEvents` | pkg/processor/processor.go:280-291 | A run in which the timeout path ends with a queued event lost, against the documentation's promise that a shutdown loses nothing |
| `ForcedShutdown.QueuedLossesExactly` | pkg/processor/processor.go:124-129 | For every reachable state in which Shutdown is called: the sequences of queued events that a forced shutdown can lose are, with a worker, exactly the suffixes of the channel's contents at that moment, and without one exactly these contents |
| `ForcedShutdown.NothingQueuedIsLostExactly` | pkg/processor/processor.go:258-291 | For every reachable state in which Shutdown is called: some continuation ends with all workers gone and an event left in the channel if and only if the channel was not empty |
| `ForcedShutdown.UnprocessedIsQueuedOrHeld` | pkg/processor/processor.go:280-291 | At every reachable state, the error return included: the sent events not counted as processed number exactly those in the channel plus those in hand, pending or in flight at the workers |
| `ForcedShutdown.ErrorReturnExactly` | pkg/processor/processor.go:280-291 | Shutdown can return its error with events unprocessed if and only if some were unprocessed when it was called; all of them in the worst case, and never more |
| `Delivery.NoWorkersNoDrain` | pkg/processor/processor.go:265-278 | A run without workers in which Shutdown returns nil and the queued event is lost |
| `Accounting.CountersAccountForCalls` | pkg/processor/processor.go:204-254 | When no Submit runs, received, duplicated, dropped and panicked calls add up to all calls, and received equals the number of sent events |
| `Accounting.ReceivedLag` | pkg/processor/processor.go:233-234 | The received counter lags behind the sends by exactly the calls between their send and their counter; processed exceeds it if and only if these outnumber the events in the channel and with the workers |
| `Accounting.ProcessedCanRunAheadExactly` | pkg/processor/processor.go:233-234 | A configuration can reach a state in which processed exceeds received if and only if it has a worker |
| `Accounting.NoOverlapNoLoss` | pkg/processor/processor.go:249-251 | If no Submit overlapped Shutdown, none was dropped and none panicked on the closed channel |
| `CallFates.NothingIsSentAfterClose` | pkg/processor/processor.go:232-253 | From every state with a closed channel, in every run: no event is sent, the calls whose event was sent stay exactly the same, and every other call that finishes, later ones included, was rejected or dropped or panicked |
| `CallFates.FatesExactly` | pkg/processor/processor.go:206-253 | For every call of every reachable state with a closed channel, what can still become of it: sent if and only if it already was; panicked if and only if it had not decided (or already had panicked); dropped if and only if it had found the channel full, was not yet waiting in the second select, and Shutdown had not returned nil (or already was dropped); rejected if and only if it was still being checked (or already was rejected) |
| `Accounting.OverlapCanPanic` | pkg/processor/processor.go:233 | In every configuration some run has a Submit that overlaps Shutdown panic on the closed channel |
| `Accounting.GracefulShutdownDelivers` | pkg/processor/processor.go:204-278 | End to end, after a graceful shutdown with a worker: each plugin was handed each event it accepts exactly as often as Submit calls had it sent |
| `Accounting.GracefulTotalsAgree` | pkg/processor/processor.go:272-278 | After a graceful shutdown with a worker, processed equals received if and only if no call is between its send and its counter, which holds when no Submit overlapped the shutdown |
| `SubmitProtocol.CallsAreStarts` | pkg/processor/processor.go:204 | In every run the calls are the Submit calls that were started, one each, with their own events |
| `SubmitProtocol.EveryCallIsChecked` | pkg/processor/processor.go:206-229 | With a deduplicator of any kind, at every reachable state, a call has been checked if and only if it is past its check; so none gets to its send or is rejected unchecked |
| `SubmitProtocol.NoDedupNoCheck` | pkg/processor/processor.go:206 | Without a deduplicator no call is ever checked, marked or rejected |
| `SubmitProtocol.CheckDecides` | pkg/processor/processor.go:210-228 | For every configuration and every run after a check: the call is rejected if and only if the answer was that the event is known; after any other answer, a failure included, it is marked before it is sent; a rejected call is neither marked nor sent |
| `Backpressure.CanBeSentExactly` | pkg/processor/processor.go:231-253 | For every call of every reachable state with an open channel: its event can still be sent, or has been, if and only if it was sent, or the call is undecided and there is a worker or room in the channel |
| `Backpressure.NoBlockBelowCapacity` | pkg/processor/processor.go:237-252 | While fewer events have been sent than the channel holds, no call is blocked or has been dropped |
| `DedupWindow.RunKeepsDedup` | pkg/processor/processor.go:206-229 | The relation between cache, marks, checks and rejections holds after every run with the memory deduplicator |
| `DedupWindow.DuplicatesNeedOverlapOrExpiry` | pkg/processor/processor.go:206-229 | If two calls with one key both reach the send, the later-marking one checked before the other's mark or more than the window after it |
| `DedupWindow.SequentialDuplicatesAreSeparated` | pkg/processor/processor.go:206-229 | If the two calls do not overlap, their marks are more than the window apart |
| `DedupWindow.RepeatsWithinTheWindowAreRejected` | pkg/processor/processor.go:210-221 | A call that checks after a mark of its key and within the window is rejected |
| `DedupWindow.RejectionsHaveAnOriginal` | pkg/processor/processor.go:215-221 | Every rejected call has another call with its key that marked before the check and got past deduplication |
| `DedupWindow.RejectedEventsAreTrueDuplicates` | pkg/processor/processor.go:215-221 | If no event hides ':' in its first three fields, that other call carried the same kind, namespace, user, event id and last field |
| `Race.RacePossibleExactly` | pkg/processor/processor.go:206-246 | For every configuration with the memory deduplicator and every event: two calls can both have it sent with marks within one window if and only if there is a worker or room for two events in the channel |
| `CacheLaw.CacheIsReplay` | pkg/dedup/memory.go:45-103 | At the end of every run of the pipeline the cache is the replay of the marks and sweeps of that run, so that the laws of `TtlCache` hold of it |
| `CacheLaw.RejectedExactly` | pkg/processor/processor.go:210-221 | For every call of every run that has made its check: it was rejected if and only if the last mark of its key before the check had survived the last sweep before the check |
| `Drain.StepCosts` | pkg/processor/processor.go:110-131 | After the channel is closed every worker-side step uses up work and no other step adds any |
| `Drain.DrainIsBounded` | pkg/processor/processor.go:258-269 | No run from a closed channel holds more worker-side steps than the work that was left |
| `Drain.LiveWorkersCanStep` | pkg/processor/processor.go:110-131 | After the channel is closed every live worker, or the callback blocking it, can be moved on without waiting for a timer |
| `Drain.DrainCompletes` | pkg/processor/processor.go:258-269 | From every state with a closed channel some bounded run of worker-side steps, none of them a timer firing, ends with all workers gone |
| `Drain.WaitingShutdownCanFinish` | pkg/processor/processor.go:258-278 | Whenever Shutdown is waiting, a bounded continuation of worker-side steps lets it return nil |
| `Drain.NoDrainRunsForever` | pkg/processor/processor.go:258-269 | The bound on worker-side steps holds for every continuation of every reachable state with a closed channel |
| `Backoff.RetryPolicy.NextBackoff` | pkg/storage/plugin.go:82-97 | The loop with its early return computes the capped delay for every policy and attempt |
| `Backoff.DelayInRange` | pkg/storage/plugin.go:82-97 | For a multiplier of at least 1 and a first delay between 0 and the cap, every delay lies between the first delay and the cap |
| `Backoff.DelayMonotone` | pkg/storage/plugin.go:82-97 | For such a policy a later attempt never waits less |
| `Backoff.CapKeptExactly` | pkg/storage/plugin.go:83-93 | For every policy the cap is kept if and only if the attempt is positive or the first delay respects it |
| `Backoff.IntegerDelayClosedForm` | pkg/storage/plugin.go:88-96 | For an integer multiplier M the delay is min(max, initial * M^attempt) |
| `Backoff.FractionalDelayBounds` | pkg/storage/plugin.go:88-96 | For any real multiplier M of at least 1 an uncapped delay is at most initial * M^n and, for n at least 1, falls short of it by less than the sum of M^i for i < n |
| `Backoff.CappedExactly` | pkg/storage/plugin.go:88-96 | For every policy the delay is capped if and only if some value on the way exceeds the cap, and is the truncated exponential otherwise |
| `Backoff.CappedAtTheEnd` | pkg/storage/plugin.go:90-93 | For a growing policy the early return changes nothing: the delay is the minimum of the cap and the truncated exponential |
| `Backoff.CappedOnlyAboveTheCap` | pkg/storage/plugin.go:88-93 | A growing policy, fractional or not, is capped only if initial * M^n exceeds the cap, and whenever initial * M^n less the sum of the lower powers reaches it |
| `Backoff.TruncatesTowardZero` | pkg/storage/plugin.go:89 | The conversion to a duration drops the fraction, for negative values too |
| `Base64Url.PaddingRepairRoundTrip` | pkg/service/telemetry.go:179-187 | For every byte string, encoding without padding, repairing the padding and decoding gives the bytes back |
| `Base64Url.PaddedLength` | pkg/service/telemetry.go:180-182 | The padded length is a multiple of four and at most three characters longer |
| `Base64Url.EncodedLength` | pkg/service/telemetry.go:180-182 | An encoding never has a length of 1 modulo 4, so it never calls for three '=' |
| `Base64Url.SymbolsFollowTheTable` | pkg/service/telemetry.go:184 | Each symbol stands for its index in the URL-safe table of RFC 4648, and no other character has a value |
| `Base64Url.GroupsAreBigEndian` | pkg/service/telemetry.go:184 | For every byte string and every group: its symbols denote the same number as its bytes, in a shorter last group followed by zero bits |
| `Base64Url.DecodesBigEndian` | pkg/service/telemetry.go:184 | For every payload that decodes and every group: the bytes denote the number of its symbols, without the bits that fill no byte |
| `Base64Url.BreaksAreIgnored` | pkg/service/telemetry.go:184 | A line break anywhere in a text makes no difference to its decoding |
| `Base64Url.DecoderAcceptsExactly` | pkg/service/telemetry.go:184-187 | The decoder accepts a text without line breaks if and only if it consists of whole groups over the alphabet with at most the last one or two characters replaced by '=' |
| `Base64Url.DecodesExactly` | pkg/service/telemetry.go:180-187 | A payload over the alphabet decodes if and only if its length is not 1 modulo 4 |
| `Base64Url.ThreeEqualsNeverDecode` | pkg/service/telemetry.go:180-187 | A payload without line breaks that is padded with three '=' is rejected, whatever its characters |
| `Base64Url.DecodingInjectiveExactlyWhenCanonical` | pkg/service/telemetry.go:184 | Re-encoding a decoded payload gives it back if and only if its unused trailing bits are zero |
| `Token.PayloadRecovered` | pkg/service/telemetry.go:172-187 | The payload of a compact token comes back, with or without the scheme prefix |
| `Token.RejectedExactly` | pkg/service/telemetry.go:173-187 | A three-part token with a payload over the alphabet, with or without the scheme prefix, is refused for its payload if and only if the payload length is 1 modulo 4 |
| `Token.PayloadFoundExactly` | pkg/service/telemetry.go:172-187 | A header value yields a payload if and only if, without the scheme prefix, it has three parts and the middle one decodes to it; it is a malformed token if and only if it does not have three parts |
| `Token.UserIdRecovered` | pkg/service/telemetry.go:161-206 | End to end, for every payload: the bearer token made with it yields `sub` if that is not empty, else `user_id`, of the claims parsed from this very payload, or the error for unparsable claims or an empty id |
| `Token.UserIdFoundExactly` | pkg/service/telemetry.go:161-206 | For all metadata: a request yields the user id u if and only if it has a first authorization value, of three parts, the middle one decodes, the claims parse, and they name u, which is not empty |
| `Token.MissingExactly` | pkg/service/telemetry.go:162-170 | For all metadata: the missing-metadata error is returned if and only if there is none, and the missing-header error if and only if it has no authorization value |
| `Token.ErrorsExactly` | pkg/service/telemetry.go:172-206 | Each error is returned if and only if its own cause is there: not three parts, a middle part that does not decode, claims that do not parse, two empty ids |
| `Token.PrefixTrimmedExactly` | pkg/service/telemetry.go:172 | The scheme prefix "Bearer " is removed once from the front, and a value that does not begin with it is left alone |
| `Postgres.BuildInsert` | pkg/storage/plugins/postgres/gameplay.go:147-183 | The loop yields nothing for an empty batch and an error if no event was transformed; otherwise the text reads back as $1 to $7k in tuples of seven, k being the number of transformed events, there are 7k arguments, and the argument for column j of event i is the event's value for the name of column j |
| `Postgres.TextReadsBack` | pkg/storage/plugins/postgres/gameplay.go:181-183 | A strict reader recovers any list of placeholder tuples from its text |
| `Postgres.PlaceholdersMatchArguments` | pkg/storage/plugins/postgres/gameplay.go:157-175 | For every list of k surviving rows: the VALUES text reads back as $1 to $7k in order, there are 7k arguments, and every placeholder refers to its own row and column |
| `Postgres.DecimalReadsBack` | pkg/storage/plugins/postgres/gameplay.go:168-170 | The decimal text of a position denotes that position |
| `Postgres.SurvivorAt` | pkg/storage/plugins/postgres/gameplay.go:161-174 | Every transformed event is the survivor after those transformed before it in the batch |
| `Postgres.SurvivorsCounted` | pkg/storage/plugins/postgres/gameplay.go:162-167 | There are as many survivors as transformed events, and none if and only if every transformation failed |

## Left out

- gRPC and HTTP servers, the gateway, metrics, tracing, logging, login and token validation: plumbing around the modelled parts.
- The wire behaviour of Redis, Kafka, MongoDB, S3 and SQL. A plugin is a pure filter and a write with an arbitrary outcome; a deduplicator other than the in-memory one may answer or fail in any way.
- SHA-256. The cache is keyed by the deduplication key itself, as if the fingerprint were injective.
- JSON. Parsing the claims is a parameter of `Token.ExtractUserId`; whether an event's transformation fails, and the row it yields, are part of the input of `Postgres.BuildInsert`.
- Wall-clock latency, scheduling fairness and the context timeouts of 100 ms and 30 s. Time is an abstract clock that never runs backwards.
- Float rounding and 64-bit overflow in the backoff: the multiplier is an exact real and durations are unbounded integers.
- Wrap-around of the 64-bit counters, a negative batch size, a second `Shutdown` and a second `Close` of the deduplicator, which panic in the source.
- `Close` of the deduplicator inside a run of the pipeline: the application closes it after the processors have shut down (internal/app/app.go:144-166). The class models it.
- The order in which different workers' calls reach one plugin. The calls of one worker are in order; across workers only how often each event was handed over is stated.
- `Submit`, `Shutdown` and `Start` as methods of a class: they are actions of `Pipeline`, because what they guarantee lies in the interleavings. The counters, the channel and the context are parts of the state there.
- Drain.DrainIsBounded: assumes that every `WriteBatch` returns; a write that blocks forever blocks its worker.
- ProcessorClass.Processor.Worker: one worker whose flushes run at one go; steps of other goroutines inside a flush, and the other workers, are in `Workers` and `Pipeline`.
- BatcherClass.Batcher.Add: the flush function is modelled by recording the slice it is given; what it does with the slice is `ProcessorClass.Processor.ProcessBatch`.
- ProcessorClass.Processor.ProcessBatch: each plugin goroutine is one step here; in `Workers` its call and the return of the call are two.
- Backoff.FractionalDelayBounds: the comparison with the exact exponential is made over the reals, not over floats.
- The keywords and the table name around the column list and the VALUES text of the insert, and the transaction around it.
- `extractSourceIP`, `ToDocument`, `Stats` and configuration loading: only easy facts.
