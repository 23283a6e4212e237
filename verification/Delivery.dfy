/** What the flow invariant means to a reader: order, memory, timers, what the plugins
    were handed, and what each way of shutting down leaves behind. */
module Delivery {
  import opened Wrappers
  import opened Sequences
  import opened Events
  import opened Batching
  import opened FanOut
  import opened Workers
  import opened Pipeline
  import opened Flow

  // ----- order and memory

  function Streams(workers: seq<Worker>): seq<seq<Event>> {
    seq(|workers|, w requires 0 <= w < |workers| => Stream(workers[w]))
  }

  lemma TakesInterleaveStreams(taken: seq<Take>, workers: seq<Worker>)
    requires StreamsInv(taken, workers)
    ensures Interleaves(Streams(workers), All(taken))
  {
    var streams := Streams(workers);
    assert forall w :: 0 <= w < |streams| ==> streams[w] == Stream(workers[w]);
  }

  /** At every reachable state the sent events are an interleaving of the workers' streams
      followed by the channel: nothing is lost, duplicated or reordered within a worker. */
  lemma SentIsInterleaved(c: Config, s: State)
    requires Reachable(c, s)
    ensures exists received ::
              s.sent == received + s.channel && Interleaves(Streams(s.workers), received)
  {
    ReachableFlow(c, s);
    TakesInterleaveStreams(s.taken, s.workers);
    hide Interleaves, Streams, StreamsInv, WorkersInv, ShutdownInv;
    var received := All(s.taken);
    assert s.sent == received + s.channel && Interleaves(Streams(s.workers), received);
  }

  lemma {:induction false} OneWorkerTakesAll(taken: seq<Take>)
    requires forall i :: 0 <= i < |taken| ==> taken[i].worker < 1
    ensures Of(taken, 0) == All(taken)
  {
    if taken != [] {
      OneWorkerTakesAll(taken[..|taken| - 1]);
    }
  }

  /** With one worker the processed batches, concatenated, are a prefix of the send order. */
  lemma OneWorkerKeepsSendOrder(c: Config, s: State)
    requires Reachable(c, s) && c.workers == 1
    ensures |s.workers| == 1 && s.sent == Stream(s.workers[0]) + s.channel
    ensures Flat(s.workers[0].flushed) <= s.sent
  {
    ReachableFlow(c, s);
    OneWorkerTakesAll(s.taken);
    var w := s.workers[0];
    assert Stream(w)[..|Flat(w.flushed)|] == Flat(w.flushed);
  }

  lemma {:induction false} StreamsSplit(workers: seq<Worker>)
    ensures Sum(workers, StreamSize) == Sum(workers, Completed) + Sum(workers, Backlog)
  {
    if workers != [] {
      StreamsSplit(workers[..|workers| - 1]);
      StreamLength(workers[|workers| - 1]);
    }
  }

  function StreamSize(w: Worker): nat {
    |Stream(w)|
  }

  /** How many events each of the workers `0..n` received. */
  function ShareSizes(taken: seq<Take>, n: nat): seq<nat> {
    seq(n, w requires 0 <= w < n => |Of(taken, w)|)
  }

  lemma ShareSizesGrow(taken: seq<Take>, t: Take, n: nat)
    ensures Total(ShareSizes(taken + [t], n)) == Total(ShareSizes(taken, n)) + if t.worker < n then 1 else 0
  {
    forall w | 0 <= w < n
      ensures ShareSizes(taken + [t], n)[w] == ShareSizes(taken, n)[w] + if w == t.worker then 1 else 0
    {
      TakenAppend(taken, t, w);
    }
    TotalBump(ShareSizes(taken, n), ShareSizes(taken + [t], n), t.worker, 1);
  }

  lemma {:induction false} SharesAddUp(taken: seq<Take>, n: nat)
    requires forall i :: 0 <= i < |taken| ==> taken[i].worker < n
    ensures Total(ShareSizes(taken, n)) == |taken|
  {
    if taken == [] {
      TotalZero(ShareSizes(taken, n));
    } else {
      var front, last := taken[..|taken| - 1], taken[|taken| - 1];
      SharesAddUp(front, n);
      ShareSizesGrow(front, last, n);
      assert taken == front + [last];
    }
  }

  lemma {:induction false} SharesAreStreams(taken: seq<Take>, workers: seq<Worker>)
    requires forall w :: 0 <= w < |workers| ==> Of(taken, w) == Stream(workers[w])
    ensures Total(ShareSizes(taken, |workers|)) == Sum(workers, StreamSize)
  {
    if workers != [] {
      var n := |workers| - 1;
      SharesAreStreams(taken, workers[..n]);
      assert ShareSizes(taken, n + 1)[..n] == ShareSizes(taken, n);
    }
  }

  /** Every sent event is processed, held by a worker, or still in the channel. */
  lemma SentAddsUp(c: Config, s: State)
    requires FlowInv(c, s)
    ensures |s.sent| == s.processed + Sum(s.workers, Backlog) + |s.channel|
  {
    AllLength(s.taken);
    SharesAddUp(s.taken, |s.workers|);
    SharesAreStreams(s.taken, s.workers);
    StreamsSplit(s.workers);
  }

  /** The memory bound: events sent but not yet processed fit into the channel plus one
      batch per worker. */
  lemma MemoryBound(c: Config, s: State)
    requires Reachable(c, s)
    ensures s.processed <= |s.sent|
    ensures |s.sent| <= s.processed + c.capacity + c.workers * AtLeastOne(c.settings.batchSize)
  {
    ReachableFlow(c, s);
    SentAddsUp(c, s);
    forall w | 0 <= w < |s.workers|
      ensures Backlog(s.workers[w]) <= AtLeastOne(c.settings.batchSize)
    {
      BacklogBound(c.settings, s.workers[w], s.now);
    }
    SumBound(s.workers, AtLeastOne(c.settings.batchSize), Backlog);
  }

  /** What set off a flush shows in its size: `Add` flushes exactly full batches, a timer
      callback only partial ones, and no flush is empty or too long. */
  lemma FlushSizes(c: Config, s: State, w: nat)
    requires Reachable(c, s) && w < |s.workers| && s.workers[w].flight.Flight?
    ensures var v, full := s.workers[w], AtLeastOne(c.settings.batchSize);
            && v.lock.Held? && v.buffer.pending == []
            && 1 <= |v.flight.batch| <= full
            && (v.lock.owner.Loop? && v.pc.Adding? ==> |v.flight.batch| == full)
            && (v.lock.owner.Callback? ==> |v.flight.batch| < full)
    ensures BatchSizes(s.workers[w].flushed, c.settings.batchSize)
  {
    ReachableWorker(c, s, w);
  }

  // ----- timers

  /** While a batcher's lock is free, events are pending exactly when it has a timer; that
      timer is armed or its callback waits, and was due at most `maxWait` after each
      pending event was added. */
  lemma NoEventIsStranded(c: Config, s: State, w: nat)
    requires Reachable(c, s) && w < |s.workers| && s.workers[w].lock.Free?
    ensures var b := s.workers[w].buffer;
            && (b.pending != [] <==> b.timer.Some?)
            && |b.addedAt| == |b.pending|
            && (b.timer.Some? ==>
                  && (b.timer.value in b.armed || b.timer.value in b.fired)
                  && forall k :: 0 <= k < |b.pending| ==>
                       Deadline(b, b.timer.value) <= b.addedAt[k] + c.settings.maxWait)
  {
    ReachableWorker(c, s, w);
  }

  /** When a callback takes the lock with events pending it flushes before the flush interval of
      the oldest of them is over exactly when the batcher's own timer is still armed and not
      due; its own timer's callback never does. */
  lemma EarlyFlushExactly(c: Config, s: State, w: nat, id: nat)
    requires Reachable(c, s) && Enabled(c, s, Work(w, TakeLock(id)))
    requires s.workers[w].buffer.pending != []
    ensures var b := s.workers[w].buffer;
            && b.timer.Some? && |b.addedAt| == |b.pending|
            && (b.timer == Some(id) ==> b.addedAt[0] + c.settings.maxWait <= s.now)
            && (s.now < b.addedAt[0] + c.settings.maxWait
                <==> b.timer.value in b.armed && s.now < b.armed[b.timer.value])
  {
    ReachableWorker(c, s, w);
  }

  // ----- what the plugins were handed

  /** The calls of one worker on one plugin: one per flushed batch with an accepted event,
      in flush order, on exactly the accepted events in order, and never an empty one. */
  lemma CallsOfOneWorker(c: Config, s: State, w: nat, p: nat)
    requires Reachable(c, s) && w < |s.workers| && p < |c.settings.filters|
    ensures var v, keep := s.workers[w], c.settings.filters[p];
            && |v.writes| == |c.settings.filters|
            && v.writes[p] == CallsFor(CalledBatches(v, p), keep)
            && [] !in v.writes[p]
            && Flat(v.writes[p]) <= Filter(Stream(v), keep)
  {
    ReachableFlow(c, s);
    WritesArePrefix(c.settings, s.workers[w], s.now, p);
  }

  /** The flush waits for its plugins: no `WriteBatch` call goes on outside a flush, so that with
      nothing in flight every call that was made has returned. */
  lemma NoCallOutlivesItsFlush(c: Config, s: State, w: nat, p: nat)
    requires Reachable(c, s) && w < |s.workers| && p < |c.settings.filters|
    ensures var v := s.workers[w];
            && |v.returned| == |v.writes| == |c.settings.filters|
            && v.returned[p] <= |v.writes[p]| <= v.returned[p] + 1
            && (v.flight.NoFlight? ==> v.returned[p] == |v.writes[p]|)
  {
    ReachableWorker(c, s, w);
  }

  lemma FilterPrefix(front: seq<Event>, rest: seq<Event>, keep: Event -> bool)
    ensures Filter(front, keep) <= Filter(front + rest, keep)
  {
    FilterConcat(front, rest, keep);
  }

  /** The events of the batches whose call plugin `p` has already got. */
  function CalledBatches(w: Worker, p: nat): seq<seq<Event>> {
    if w.flight.Flight? && p < |w.flight.writers| && !w.flight.writers[p].Ready?
    then w.flushed + [w.flight.batch] else w.flushed
  }

  lemma CalledBatchesLeadTheStream(w: Worker, p: nat)
    ensures Flat(CalledBatches(w, p)) <= Stream(w)
  {
    if w.flight.Flight? {
      FlatAppend(w.flushed, w.flight.batch);
      assert Stream(w) == (Flat(w.flushed) + w.flight.batch) + (w.buffer.pending + Hand(w));
      assert Flat(w.flushed) <= Flat(w.flushed) + w.flight.batch <= Stream(w);
    }
  }

  lemma WritesAreCalls(g: Settings, w: Worker, now: nat, p: nat)
    requires WorkerInv(g, w, now) && p < |g.filters|
    ensures p < |w.writes| && w.writes[p] == CallsFor(CalledBatches(w, p), g.filters[p])
  {
    if w.flight.Flight? {
      CallsForAppend(w.flushed, w.flight.batch, g.filters[p]);
    }
  }

  lemma CallsArePrefix(w: Worker, p: nat, calls: seq<seq<Event>>, keep: Event -> bool)
    requires calls == CallsFor(CalledBatches(w, p), keep)
    ensures [] !in calls
    ensures Flat(calls) <= Filter(Stream(w), keep)
  {
    hide *;
    var batches := CalledBatches(w, p);
    NoCallIsEmpty(batches, keep);
    CallsCarryTheAcceptedEvents(batches, keep);
    CalledBatchesLeadTheStream(w, p);
    var stream, called := Stream(w), Flat(batches);
    FilterPrefix(called, stream[|called|..], keep);
    assert stream == called + stream[|called|..];
  }

  lemma WritesArePrefix(g: Settings, w: Worker, now: nat, p: nat)
    requires WorkerInv(g, w, now) && p < |g.filters|
    ensures |w.writes| == |g.filters|
    ensures w.writes[p] == CallsFor(CalledBatches(w, p), g.filters[p])
    ensures [] !in w.writes[p]
    ensures Flat(w.writes[p]) <= Filter(Stream(w), g.filters[p])
  {
    WritesAreCalls(g, w, now, p);
    CallsArePrefix(w, p, w.writes[p], g.filters[p]);
  }

  /** How often `e` occurs in `xs`. */
  function Occurrences(xs: seq<Event>, e: Event): nat {
    if xs == [] then 0 else Occurrences(xs[..|xs| - 1], e) + if xs[|xs| - 1] == e then 1 else 0
  }

  lemma OccurrencesAppend(xs: seq<Event>, x: Event, e: Event)
    ensures Occurrences(xs + [x], e) == Occurrences(xs, e) + if x == e then 1 else 0
  {
    assert (xs + [x])[..|xs|] == xs;
  }

  lemma {:induction false} OccurrencesConcat(xs: seq<Event>, ys: seq<Event>, e: Event)
    ensures Occurrences(xs + ys, e) == Occurrences(xs, e) + Occurrences(ys, e)
  {
    if ys == [] {
      assert xs + ys == xs;
    } else {
      var front, last := ys[..|ys| - 1], ys[|ys| - 1];
      OccurrencesConcat(xs, front, e);
      assert xs + ys == (xs + front) + [last];
      OccurrencesAppend(xs + front, last, e);
    }
  }

  lemma OccurrencesOfPrefix(xs: seq<Event>, ys: seq<Event>, e: Event)
    requires xs <= ys
    ensures Occurrences(xs, e) <= Occurrences(ys, e)
  {
    assert ys == xs + ys[|xs|..];
    OccurrencesConcat(xs, ys[|xs|..], e);
  }

  /** How often the flushes of each worker handed `e` to plugin `p`. */
  function HandedShares(workers: seq<Worker>, p: nat, e: Event): seq<nat> {
    seq(|workers|, w requires 0 <= w < |workers| =>
      if p < |workers[w].writes| then Occurrences(Flat(workers[w].writes[p]), e) else 0)
  }

  /** How often plugin `p` was handed `e`, over all workers and all their calls. */
  function HandedTimes(workers: seq<Worker>, p: nat, e: Event): nat {
    Total(HandedShares(workers, p, e))
  }

  /** How often each of the workers `0..n` received `e`, if `keep` accepts it. */
  function AcceptedShares(taken: seq<Take>, n: nat, keep: Event -> bool, e: Event): seq<nat> {
    seq(n, w requires 0 <= w < n => Occurrences(Filter(Of(taken, w), keep), e))
  }

  lemma AcceptedAppend(xs: seq<Event>, x: Event, keep: Event -> bool, e: Event)
    ensures Occurrences(Filter(xs + [x], keep), e)
         == Occurrences(Filter(xs, keep), e) + if keep(x) && x == e then 1 else 0
  {
    FilterAppend(xs, x, keep);
    if keep(x) {
      OccurrencesAppend(Filter(xs, keep), x, e);
    } else {
      assert Filter(xs, keep) + [] == Filter(xs, keep);
    }
  }

  lemma OneShareGrows(taken: seq<Take>, t: Take, w: nat, keep: Event -> bool, e: Event)
    ensures Occurrences(Filter(Of(taken + [t], w), keep), e)
         == Occurrences(Filter(Of(taken, w), keep), e)
            + if t.worker == w && keep(t.event) && t.event == e then 1 else 0
    ensures Occurrences(Filter(All(taken + [t]), keep), e)
         == Occurrences(Filter(All(taken), keep), e) + if keep(t.event) && t.event == e then 1 else 0
  {
    TakenAppend(taken, t, w);
    AcceptedAppend(All(taken), t.event, keep, e);
    if t.worker == w {
      AcceptedAppend(Of(taken, w), t.event, keep, e);
    } else {
      assert Of(taken, w) + [] == Of(taken, w);
    }
  }

  lemma AcceptedSharesGrow(taken: seq<Take>, t: Take, n: nat, keep: Event -> bool, e: Event)
    ensures Total(AcceptedShares(taken + [t], n, keep, e))
         == Total(AcceptedShares(taken, n, keep, e))
            + if t.worker < n && keep(t.event) && t.event == e then 1 else 0
  {
    var xs, ys := AcceptedShares(taken, n, keep, e), AcceptedShares(taken + [t], n, keep, e);
    var d := if keep(t.event) && t.event == e then 1 else 0;
    forall w | 0 <= w < n
      ensures ys[w] == xs[w] + if w == t.worker then d else 0
    {
      OneShareGrows(taken, t, w, keep, e);
    }
    TotalBump(xs, ys, t.worker, d);
  }

  lemma AddUpStep(front: seq<Take>, t: Take, n: nat, keep: Event -> bool, e: Event)
    requires Total(AcceptedShares(front, n, keep, e)) == Occurrences(Filter(All(front), keep), e)
    requires t.worker < n
    ensures Total(AcceptedShares(front + [t], n, keep, e)) == Occurrences(Filter(All(front + [t]), keep), e)
  {
    AcceptedSharesGrow(front, t, n, keep, e);
    OneShareGrows(front, t, 0, keep, e);
  }

  lemma NothingAccepted(n: nat, keep: Event -> bool, e: Event)
    ensures Total(AcceptedShares([], n, keep, e)) == Occurrences(Filter(All([]), keep), e)
  {
    TotalZero(AcceptedShares([], n, keep, e));
  }

  lemma {:induction false} AcceptedSharesAddUp(taken: seq<Take>, n: nat, keep: Event -> bool, e: Event)
    requires forall i :: 0 <= i < |taken| ==> taken[i].worker < n
    ensures Total(AcceptedShares(taken, n, keep, e)) == Occurrences(Filter(All(taken), keep), e)
  {
    hide *;
    if taken == [] {
      NothingAccepted(n, keep, e);
    } else {
      var front, last := taken[..|taken| - 1], taken[|taken| - 1];
      AcceptedSharesAddUp(front, n, keep, e);
      AddUpStep(front, last, n, keep, e);
      assert taken == front + [last];
    }
  }

  lemma HandedByOne(g: Settings, w: Worker, now: nat, p: nat, e: Event)
    requires WorkerInv(g, w, now) && p < |g.filters|
    ensures |w.writes| == |g.filters|
    ensures Occurrences(Flat(w.writes[p]), e) <= Occurrences(Filter(Stream(w), g.filters[p]), e)
    ensures Backlog(w) == 0 ==> Flat(w.writes[p]) == Filter(Stream(w), g.filters[p])
  {
    WritesArePrefix(g, w, now, p);
    OccurrencesOfPrefix(Flat(w.writes[p]), Filter(Stream(w), g.filters[p]), e);
    if Backlog(w) == 0 {
      assert w.flight.NoFlight?;
      CallsCarryTheAcceptedEvents(w.flushed, g.filters[p]);
      assert Stream(w) == Flat(w.flushed);
    }
  }

  lemma HandedFromShares(g: Settings, workers: seq<Worker>, now: nat, taken: seq<Take>, p: nat, e: Event)
    requires WorkersInv(g, workers, now) && p < |g.filters|
    requires forall w :: 0 <= w < |workers| ==> Of(taken, w) == Stream(workers[w])
    ensures HandedTimes(workers, p, e) <= Total(AcceptedShares(taken, |workers|, g.filters[p], e))
    ensures (forall w :: 0 <= w < |workers| ==> Backlog(workers[w]) == 0) ==>
              HandedTimes(workers, p, e) == Total(AcceptedShares(taken, |workers|, g.filters[p], e))
  {
    hide WorkerInv, Occurrences, Filter, Flat, Of, Stream, Total;
    var xs, ys := HandedShares(workers, p, e), AcceptedShares(taken, |workers|, g.filters[p], e);
    forall w | 0 <= w < |workers|
      ensures xs[w] <= ys[w]
      ensures Backlog(workers[w]) == 0 ==> xs[w] == ys[w]
    {
      HandedByOne(g, workers[w], now, p, e);
    }
    TotalMonotone(xs, ys);
    if forall w :: 0 <= w < |workers| ==> Backlog(workers[w]) == 0 {
      assert xs == ys;
    }
  }

  /** Across all workers, no plugin is ever handed an event its filter rejects, an event
      that was not sent, or one event more often than it was sent. */
  lemma NothingIsHandedTwice(c: Config, s: State, p: nat, e: Event)
    requires Reachable(c, s) && p < |c.settings.filters|
    ensures HandedTimes(s.workers, p, e) <= Occurrences(Filter(s.sent, c.settings.filters[p]), e)
  {
    var keep := c.settings.filters[p];
    ReachableFlow(c, s);
    HandedFromShares(c.settings, s.workers, s.now, s.taken, p, e);
    AcceptedSharesAddUp(s.taken, |s.workers|, keep, e);
    FilterPrefix(All(s.taken), s.channel, keep);
    OccurrencesOfPrefix(Filter(All(s.taken), keep), Filter(s.sent, keep), e);
  }

  /** Plugin `p` was handed the events of `sent` it accepts, each exactly as often as it was sent. */
  ghost predicate HandedExactly(c: Config, s: State, p: nat, sent: seq<Event>)
    requires p < |c.settings.filters|
  {
    forall e :: HandedTimes(s.workers, p, e) == Occurrences(Filter(sent, c.settings.filters[p]), e)
  }

  // ----- shutdown

  /** The sent events that are no longer in the channel. */
  function LeftChannel(s: State): seq<Event> {
    if |s.channel| <= |s.sent| then s.sent[..|s.sent| - |s.channel|] else []
  }

  /** Every `WriteBatch` call the worker's flushes made has returned. */
  predicate AllReturned(w: Worker) {
    |w.returned| == |w.writes| && forall p :: 0 <= p < |w.writes| ==> w.returned[p] == |w.writes[p]|
  }

  lemma ExitedWorkerIdle(c: Config, s: State, w: nat)
    requires Reachable(c, s) && w < |s.workers| && s.workers[w].pc.Exited?
    ensures Backlog(s.workers[w]) == 0
    ensures s.workers[w].buffer.pending == [] && s.workers[w].flight.NoFlight? && AllReturned(s.workers[w])
  {
    ReachableWorker(c, s, w);
    hide FlightInv, SizeInv, TimerInv, CallsFor, CallFor;
  }

  lemma WhatLeftWasTaken(c: Config, s: State)
    requires FlowInv(c, s)
    ensures LeftChannel(s) == All(s.taken) && s.sent == LeftChannel(s) + s.channel
  {
    hide WorkersInv, StreamsInv, Sum;
  }

  lemma IdleWorkersHanded(c: Config, s: State, p: nat, e: Event)
    requires FlowInv(c, s) && p < |c.settings.filters|
    requires forall w :: 0 <= w < |s.workers| ==> Backlog(s.workers[w]) == 0
    ensures HandedTimes(s.workers, p, e) == Occurrences(Filter(All(s.taken), c.settings.filters[p]), e)
  {
    hide WorkerInv, Stream, Backlog, Occurrences, Filter, Of, All, HandedTimes, Sum;
    HandedFromShares(c.settings, s.workers, s.now, s.taken, p, e);
    AcceptedSharesAddUp(s.taken, |s.workers|, c.settings.filters[p], e);
  }

  /** Once all workers have exited, for whatever reason, exactly the events still in the
      channel are lost: no worker takes an event with it, no flush is in progress, all
      other events are counted as processed, and every plugin was handed precisely the
      ones it accepts, each once. */
  lemma ExitedWorkersLoseOnlyQueuedEvents(c: Config, s: State)
    requires Reachable(c, s) && s.AllExited()
    ensures s.sent == LeftChannel(s) + s.channel
    ensures s.processed + |s.channel| == |s.sent|
    ensures forall w :: 0 <= w < |s.workers| ==>
              s.workers[w].buffer.pending == [] && s.workers[w].flight.NoFlight? && AllReturned(s.workers[w])
    ensures forall p :: 0 <= p < |c.settings.filters| ==>
              HandedExactly(c, s, p, LeftChannel(s))
  {
    ReachableFlow(c, s);
    hide Reachable, FlowInv, ShutdownInv, LeftChannel, Backlog, AllReturned, Occurrences, Filter, HandedTimes, All;
    SentAddsUp(c, s);
    forall w | 0 <= w < |s.workers|
      ensures Backlog(s.workers[w]) == 0
      ensures s.workers[w].buffer.pending == [] && s.workers[w].flight.NoFlight? && AllReturned(s.workers[w])
    {
      ExitedWorkerIdle(c, s, w);
    }
    SumZero(s.workers, Backlog);
    WhatLeftWasTaken(c, s);
    forall p | 0 <= p < |c.settings.filters|
      ensures HandedExactly(c, s, p, LeftChannel(s))
    {
      forall e
        ensures HandedTimes(s.workers, p, e) == Occurrences(Filter(LeftChannel(s), c.settings.filters[p]), e)
      {
        IdleWorkersHanded(c, s, p, e);
      }
    }
  }

  /** After a graceful shutdown nothing is in flight, and the pipeline is fully drained
      exactly when it had a worker or nothing to drain. */
  lemma GracefulShutdownDrains(c: Config, s: State)
    requires Reachable(c, s) && s.shutdown.ReturnedNil?
    ensures s.AllExited()
    ensures forall w :: 0 <= w < |s.workers| ==>
              s.workers[w].buffer.pending == [] && s.workers[w].flight.NoFlight? && AllReturned(s.workers[w])
    ensures s.channel == [] && s.processed == |s.sent| <==> c.workers > 0 || s.sent == []
    ensures c.workers > 0 ==>
              forall p :: 0 <= p < |c.settings.filters| ==>
                HandedExactly(c, s, p, s.sent)
  {
    ReachableFlow(c, s);
    ExitedWorkersLoseOnlyQueuedEvents(c, s);
    if c.workers > 0 {
      assert Leaving(s.workers[0].pc);
      assert LeftChannel(s) == s.sent;
    }
  }

  /** The timeout path can lose queued events: the only worker sees the cancelled context
      before it looks at the channel again. */
  lemma ForcedShutdownCanLoseEvents(e: Event)
    ensures exists c: Config, s: State ::
              Reachable(c, s) && c.workers > 0 && s.shutdown.ReturnedError? && s.AllExited() && s.channel == [e]
  {
    var c := Config(1, 1, SOLE_WORKER, NoDedup);
    var run, s := LeaveCancelled(c, e);
    RunFromAppend(c, Init(c), run, Work(0, Release));
    run, s := run + [Work(0, Release)], Next(c, s, Work(0, Release));
    assert Reachable(c, s);
  }

  const SOLE_WORKER := Settings(1, 0, [])

  /** The worker decides to leave and enters its final flush. */
  lemma LeaveCancelled(c: Config, e: Event) returns (run: seq<Action>, s: State)
    requires c == Config(1, 1, SOLE_WORKER, NoDedup)
    ensures RunFrom(c, Init(c), run) == Some(s)
    ensures s.workers == [InitialWorker(SOLE_WORKER).(pc := Flushing, lock := Held(Loop))]
    ensures s.channel == [e] && s.shutdown.ReturnedError?
  {
    run, s := QueueAndTimeOut(c, e);
    RunFromAppend(c, Init(c), run, Observe(0));
    run, s := run + [Observe(0)], Next(c, s, Observe(0));
    RunFromAppend(c, Init(c), run, Work(0, FinalFlush));
    run, s := run + [Work(0, FinalFlush)], Next(c, s, Work(0, FinalFlush));
  }

  /** One event is queued, then `Shutdown` begins and times out. */
  lemma QueueAndTimeOut(c: Config, e: Event) returns (run: seq<Action>, s: State)
    requires c.capacity > 0 && c.dedup.NoDedup?
    ensures RunFrom(c, Init(c), run) == Some(s)
    ensures s.workers == Init(c).workers && s.channel == [e] && s.shutdown.ReturnedError?
  {
    run, s := QueueAndClose(c, e);
    RunFromAppend(c, Init(c), run, TimeOut);
    run, s := run + [TimeOut], Next(c, s, TimeOut);
  }

  lemma QueueAndClose(c: Config, e: Event) returns (run: seq<Action>, s: State)
    requires c.capacity > 0 && c.dedup.NoDedup?
    ensures RunFrom(c, Init(c), run) == Some(s)
    ensures s.workers == Init(c).workers && s.channel == [e] && s.sent == [e] && s.shutdown.Waiting?
  {
    run, s := [], Init(c);
    RunFromAppend(c, Init(c), run, Start(e));
    run, s := run + [Start(e)], Next(c, s, Start(e));
    RunFromAppend(c, Init(c), run, Send(0));
    run, s := run + [Send(0)], Next(c, s, Send(0));
    RunFromAppend(c, Init(c), run, Close);
    run, s := run + [Close], Next(c, s, Close);
  }

  /** Without workers a graceful shutdown returns at once and loses what was queued. */
  lemma NoWorkersNoDrain(e: Event)
    ensures exists c: Config, s: State ::
              Reachable(c, s) && c.workers == 0 && s.shutdown.ReturnedNil? && s.sent == s.channel == [e]
  {
    var c := Config(0, 1, Settings(1, 0, []), NoDedup);
    var run, s := QueueAndClose(c, e);
    RunFromAppend(c, Init(c), run, ReturnNil);
    run, s := run + [ReturnNil], Next(c, s, ReturnNil);
    assert Reachable(c, s);
  }
}
