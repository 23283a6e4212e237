/** When a timer callback can flush a batch before its flush interval is over: which
    configurations allow it. */
module EarlyFlush {
  import opened Wrappers
  import opened Events
  import opened Batching
  import opened Workers
  import opened Pipeline
  import opened Flow
  import opened TimelyFlush
  import CallFates

  /** A callback can take the lock of worker `w` with events pending, the oldest of which has
      not waited for the flush interval. */
  predicate FlushesEarly(c: Config, s: State, w: nat, id: nat) {
    && Enabled(c, s, Action.Work(w, TakeLock(id)))
    && s.workers[w].buffer.pending != []
    && s.workers[w].buffer.addedAt != []
    && s.now < s.workers[w].buffer.addedAt[0] + c.settings.maxWait
  }

  lemma EarlyNeedsRoom(g: Settings, w: Worker, now: nat)
    requires WorkerInv(g, w, now) && w.lock.Free? && w.buffer.pending != []
    requires w.buffer.addedAt != [] && now < w.buffer.addedAt[0] + g.maxWait
    ensures g.batchSize >= 2 && g.maxWait >= 1
  {
    hide WritesInv, ReturnsInv, FlightInv;
  }

  /** With batches of one event nothing is ever pending while the lock is free, and with no
      interval nothing is ever early. */
  lemma EarlyFlushNeeds(c: Config, s: State, w: nat, id: nat)
    requires Reachable(c, s) && FlushesEarly(c, s, w, id)
    ensures c.workers > 0 && c.settings.batchSize >= 2 && c.settings.maxWait >= 1
  {
    ReachableWorker(c, s, w);
    hide WorkerInv, Reachable;
    EarlyNeedsRoom(c.settings, s.workers[w], s.now);
  }

  // ----- a run to an early flush

  /** Worker 0 waits at its select, the channel is open and empty. */
  predicate Idle(c: Config, s: State) {
    && s.shutdown.NotCalled? && s.channel == []
    && 0 < c.workers == |s.workers|
    && s.workers[0].pc.Selecting? && s.workers[0].lock.Free?
  }

  /** The calls from `from` on are about to send. */
  predicate Ready(s: State, from: nat) {
    forall i :: from <= i < |s.calls| ==> s.calls[i].pc.Trying?
  }

  /** One more call comes as far as its send. */
  lemma PrepareCall(c: Config, s: State, e: Event) returns (run: seq<Action>, t: State)
    requires Ready(s, 0)
    ensures RunFrom(c, s, run) == Some(t)
    ensures Ready(t, 0) && |t.calls| == |s.calls| + 1
    ensures t.workers == s.workers && t.channel == s.channel && t.shutdown == s.shutdown
  {
    RunFromAppend(c, s, [], Start(e));
    run, t := [] + [Start(e)], Next(c, s, Start(e));
    if !c.dedup.NoDedup? {
      var more, u := CallFates.GetsToSend(c, t, |s.calls|);
      RunsCompose(c, s, run, more);
      run, t := run + more, u;
    }
  }

  lemma PrepareCalls(c: Config, e: Event, count: nat) returns (run: seq<Action>, s: State)
    ensures RunFrom(c, Init(c), run) == Some(s)
    ensures Ready(s, 0) && |s.calls| == count
    ensures s.workers == Init(c).workers && s.channel == [] && s.shutdown.NotCalled?
  {
    if count == 0 {
      run, s := [], Init(c);
    } else {
      hide RunFrom;
      run, s := PrepareCalls(c, e, count - 1);
      var more, t := PrepareCall(c, s, e);
      RunsCompose(c, Init(c), run, more);
      run, s := run + more, t;
    }
  }

  /** The buffer after an `Add`. */
  function AfterAdd(g: Settings, b: Buffer, e: Event, now: nat): Buffer {
    var added := Append(b, e, now, g.maxWait);
    if |added.pending| >= g.batchSize then Detach(added) else added
  }

  /** A worker that holds an event adds it and returns to its select. */
  lemma AddAndSettle(g: Settings, w: Worker, now: nat) returns (steps: seq<Step>)
    requires WorkerInv(g, w, now) && w.pc.Holding? && w.lock.Free?
    ensures RunSteps(g, w, steps, now).Some?
    ensures var v := RunSteps(g, w, steps, now).value;
            && v.pc.Selecting? && v.lock.Free? && v.buffer == AfterAdd(g, w.buffer, w.pc.event, now)
            && (v.buffer.pending == [] ==> v.flushed == w.flushed + [w.buffer.pending + [w.pc.event]])
  {
    var v := DoStep(g, w, AddEvent, now);
    StepKeepsWorkerInv(g, w, AddEvent, now);
    var rest := [Release];
    if MustFlush(g, v) {
      rest := HolderFlushes(g, v, now);
    } else {
      RunStepsPrepend(g, v, Release, [], now);
      assert [Release] + [] == [Release];
    }
    RunStepsPrepend(g, w, AddEvent, rest, now);
    steps := [AddEvent] + rest;
  }

  lemma HandoffMoves(c: Config, s: State, i: nat)
    requires Idle(c, s) && i < |s.calls| && s.calls[i].pc.Trying?
    ensures Enabled(c, s, Handoff(i, 0))
    ensures var t := Next(c, s, Handoff(i, 0));
            && t.workers == s.workers[0 := s.workers[0].(pc := Holding(s.calls[i].event))]
            && t.shutdown == s.shutdown && t.channel == s.channel && t.now == s.now
            && t.calls == s.calls[i := s.calls[i].(pc := Counting(Received))]
  {
  }

  /** Call `i` hands its event straight to worker 0, which adds it. */
  lemma Feed(c: Config, before: seq<Action>, s: State, i: nat) returns (run: seq<Action>, t: State)
    requires RunFrom(c, Init(c), before) == Some(s) && Idle(c, s)
    requires i < |s.calls| && Ready(s, i)
    ensures RunFrom(c, Init(c), run) == Some(t) && Idle(c, t)
    ensures t.calls == s.calls[i := s.calls[i].(pc := Counting(Received))] && Ready(t, i + 1) && t.now == s.now
    ensures t.workers[0].buffer == AfterAdd(c.settings, s.workers[0].buffer, s.calls[i].event, s.now)
    ensures t.workers[0].buffer.pending == [] ==>
              t.workers[0].flushed == s.workers[0].flushed + [s.workers[0].buffer.pending + [s.calls[i].event]]
  {
    HandoffMoves(c, s, i);
    RunFromAppend(c, Init(c), before, Handoff(i, 0));
    run, t := before + [Handoff(i, 0)], Next(c, s, Handoff(i, 0));
    RunKeepsFlow(c, run);
    assert WorkerInv(c.settings, t.workers[0], t.now);
    hide WorkerInv, FlowInv, ShutdownInv, RunFrom, RunSteps, AfterAdd, Next, Enabled;
    var steps := AddAndSettle(c.settings, t.workers[0], t.now);
    LiftSteps(c, t, 0, steps);
    RunsCompose(c, Init(c), run, WorkOf(0, steps));
    run, t := run + WorkOf(0, steps), RunFrom(c, t, WorkOf(0, steps)).value;
  }

  /** Further calls fill the batch, and its flush leaves the callbacks that have fired. */
  lemma FillBatch(c: Config, before: seq<Action>, s: State, i: nat) returns (run: seq<Action>, t: State)
    requires RunFrom(c, Init(c), before) == Some(s) && Idle(c, s) && Ready(s, i)
    requires 1 <= |s.workers[0].buffer.pending| < c.settings.batchSize
    requires i + c.settings.batchSize - |s.workers[0].buffer.pending| <= |s.calls|
    requires s.workers[0].buffer.armed == map[]
    ensures RunFrom(c, Init(c), run) == Some(t) && Idle(c, t)
    ensures |t.calls| == |s.calls| && t.now == s.now
    ensures Ready(t, i + c.settings.batchSize - |s.workers[0].buffer.pending|)
    ensures t.workers[0].buffer
         == Buffer([], [], None, map[], s.workers[0].buffer.fired, s.workers[0].buffer.nextTimer)
    decreases c.settings.batchSize - |s.workers[0].buffer.pending|
  {
    assert s.workers != [];
    hide RunFrom, Idle, Ready;
    run, t := Feed(c, before, s, i);
    if |s.workers[0].buffer.pending| + 1 < c.settings.batchSize {
      run, t := FillBatch(c, run, t, i + 1);
    } else {
      EmptiedBuffer(s.workers[0].buffer, s.calls[i].event, s.now, c.settings);
    }
  }

  lemma EmptiedBuffer(b: Buffer, e: Event, now: nat, g: Settings)
    requires b.armed == map[] && 1 <= |b.pending| && |b.pending| + 1 >= g.batchSize
    ensures AfterAdd(g, b, e, now) == Buffer([], [], None, map[], b.fired, b.nextTimer)
  {
  }

  /** Time passes, and the timer of the first event fires. */
  lemma FireFirst(c: Config, before: seq<Action>, s: State) returns (run: seq<Action>, t: State)
    requires RunFrom(c, Init(c), before) == Some(s) && Idle(c, s) && Ready(s, 1)
    requires s.workers[0].buffer.armed == map[0 := s.now + c.settings.maxWait]
    ensures RunFrom(c, Init(c), run) == Some(t) && Idle(c, t) && Ready(t, 1) && |t.calls| == |s.calls|
    ensures t.workers[0].buffer == FireTimer(s.workers[0].buffer, 0)
  {
    var wait, fire := Tick(c.settings.maxWait), Action.Work(0, Step.Fire(0));
    RunFromAppend(c, Init(c), before, wait);
    run, t := before + [wait], Next(c, s, wait);
    RunFromAppend(c, Init(c), run, fire);
    run, t := run + [fire], Next(c, t, fire);
  }

  /** The callback of the first batch waits for the lock while that batch still fills up. */
  lemma FirstFired(c: Config, e: Event, count: nat) returns (run: seq<Action>, s: State)
    requires c.workers > 0 && c.settings.batchSize >= 2 && count > 0
    ensures RunFrom(c, Init(c), run) == Some(s) && Idle(c, s) && Ready(s, 1) && |s.calls| == count
    ensures var b := s.workers[0].buffer;
            |b.pending| == 1 && b.armed == map[] && b.nextTimer == 1 && 0 in b.fired
  {
    run, s := PrepareCalls(c, e, count);
    assert Idle(c, s);
    hide RunFrom, Ready;
    run, s := Feed(c, run, s, 0);
    assert s.workers[0].buffer.armed == map[0 := s.now + c.settings.maxWait];
    run, s := FireFirst(c, run, s);
  }

  lemma EarlyFlushReached(c: Config, e: Event) returns (s: State)
    requires c.workers > 0 && c.settings.batchSize >= 2 && c.settings.maxWait >= 1
    ensures Reachable(c, s) && FlushesEarly(c, s, 0, 0)
  {
    var n := c.settings.batchSize;
    var run;
    run, s := FirstFired(c, e, n + 1);
    hide RunFrom, Ready;
    run, s := FillBatch(c, run, s, 1);
    run, s := Feed(c, run, s, n);
    assert Reachable(c, s);
  }

  /** A callback can flush a batch before its flush interval is over exactly when there is a
      worker, a batch holds more than one event, and the interval is not zero: whatever
      the channel, the plugins and the deduplicator. */
  lemma EarlyFlushPossibleExactly(c: Config)
    ensures (exists s, w, id :: Reachable(c, s) && FlushesEarly(c, s, w, id))
       <==> c.workers > 0 && c.settings.batchSize >= 2 && c.settings.maxWait >= 1
  {
    hide FlushesEarly, Reachable;
    if exists s, w, id :: Reachable(c, s) && FlushesEarly(c, s, w, id) {
      var s, w, id :| Reachable(c, s) && FlushesEarly(c, s, w, id);
      EarlyFlushNeeds(c, s, w, id);
    }
    if c.workers > 0 && c.settings.batchSize >= 2 && c.settings.maxWait >= 1 {
      var s := EarlyFlushReached(c, Gameplay("", "", 0, "", None));
    }
  }
}
