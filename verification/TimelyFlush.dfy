/** Pending events always have a way to the plugins that needs no further event: whoever holds
    the batcher's lock moves on, the timer fires when it is due, and its callback flushes. */
module TimelyFlush {
  import opened Wrappers
  import opened Sequences
  import opened Events
  import opened Batching
  import opened Workers
  import opened Pipeline
  import opened Flow

  /** The worker after `steps`, if each of them was possible in its turn. */
  function RunSteps(g: Settings, w: Worker, steps: seq<Step>, now: nat): Option<Worker>
    decreases |steps|
  {
    if steps == [] then Some(w)
    else if CanStep(g, w, steps[0], now) then RunSteps(g, DoStep(g, w, steps[0], now), steps[1..], now)
    else None
  }

  lemma RunStepsPrepend(g: Settings, w: Worker, step: Step, steps: seq<Step>, now: nat)
    requires CanStep(g, w, step, now)
    ensures RunSteps(g, w, [step] + steps, now) == RunSteps(g, DoStep(g, w, step, now), steps, now)
  {
    assert ([step] + steps)[1..] == steps;
  }

  /** Steps of the flush, the timers and their callbacks; the worker goroutine at most lets go
      of the lock. */
  predicate NeedsNoEvent(steps: seq<Step>) {
    forall k :: 0 <= k < |steps| ==> !steps[k].AddEvent? && !steps[k].FinalFlush?
  }

  lemma NeedsNoEventPrepend(step: Step, steps: seq<Step>)
    requires NeedsNoEvent(steps) && !step.AddEvent? && !step.FinalFlush?
    ensures NeedsNoEvent([step] + steps)
  {
  }

  /** `v` is `w` after exactly the batch `batch` was flushed, with nothing pending. */
  predicate JustFlushed(w: Worker, v: Worker, batch: seq<Event>) {
    v.flushed == w.flushed + [batch] && v.buffer.pending == [] && v.lock.Free? && v.flight.NoFlight?
  }

  lemma WriterMoves(g: Settings, w: Worker, step: Step, now: nat)
    requires CanStep(g, w, step, now) && (step.StartWriter? || step.EndWriter?)
    ensures var v := DoStep(g, w, step, now);
            && v.flight.Flight? && v.flight.batch == w.flight.batch && v.flushed == w.flushed
            && v.buffer == w.buffer && v.lock == w.lock && v.pc == w.pc
            && Sum(v.flight.writers, WriterWork) < Sum(w.flight.writers, WriterWork)
  {
    var v := DoStep(g, w, step, now);
    SumUpdate(w.flight.writers, step.plugin, v.flight.writers[step.plugin], WriterWork);
  }

  lemma FinishEnds(g: Settings, w: Worker, now: nat)
    requires CanStep(g, w, FinishFlush, now) && w.buffer.pending == []
    ensures var v := DoStep(g, w, FinishFlush, now);
            JustFlushed(w, v, w.flight.batch) && v.buffer == w.buffer && v.pc == AfterRelease(w)
  {
  }

  lemma FlightHolderStep(g: Settings, w: Worker, now: nat)
    requires WorkerInv(g, w, now) && w.flight.Flight?
    ensures w.lock.Held? && w.buffer.pending == [] && CanStep(g, w, HolderStep(g, w), now)
    ensures var step := HolderStep(g, w); step.FinishFlush? || step.StartWriter? || step.EndWriter?
  {
    HolderCanStep(g, w, now);
  }

  /** A flush in flight comes to its end. */
  lemma FlightEnds(g: Settings, w: Worker, now: nat) returns (steps: seq<Step>)
    requires WorkerInv(g, w, now) && w.flight.Flight?
    ensures RunSteps(g, w, steps, now).Some? && NeedsNoEvent(steps)
    ensures var v := RunSteps(g, w, steps, now).value;
            JustFlushed(w, v, w.flight.batch) && v.buffer == w.buffer && v.pc == AfterRelease(w)
    ensures |steps| <= Sum(w.flight.writers, WriterWork) + 1
    decreases Sum(w.flight.writers, WriterWork)
  {
    FlightHolderStep(g, w, now);
    var step := HolderStep(g, w);
    hide WorkerInv, CanStep, DoStep, HolderStep, NeedsNoEvent, Sum;
    var v := DoStep(g, w, step, now);
    var rest := [];
    if step.FinishFlush? {
      FinishEnds(g, w, now);
      NothingNeedsNoEvent();
    } else {
      WriterMoves(g, w, step, now);
      StepKeepsWorkerInv(g, w, step, now);
      rest := FlightEnds(g, v, now);
    }
    RunStepsPrepend(g, w, step, rest, now);
    NeedsNoEventPrepend(step, rest);
    steps := [step] + rest;
  }

  lemma NothingNeedsNoEvent()
    ensures NeedsNoEvent([])
  {
  }

  /** The lock holder that is about to flush gets all pending events flushed as one batch. */
  lemma HolderFlushes(g: Settings, w: Worker, now: nat) returns (steps: seq<Step>)
    requires WorkerInv(g, w, now) && MustFlush(g, w)
    ensures RunSteps(g, w, steps, now).Some? && NeedsNoEvent(steps)
    ensures var v := RunSteps(g, w, steps, now).value;
            JustFlushed(w, v, w.buffer.pending) && v.buffer == Detach(w.buffer) && v.pc == AfterRelease(w)
    ensures |steps| <= 2 * |g.filters| + 2
  {
    var v := DoStep(g, w, StartFlush, now);
    StepKeepsWorkerInv(g, w, StartFlush, now);
    FreshWritersWork(|g.filters|);
    var rest := FlightEnds(g, v, now);
    RunStepsPrepend(g, w, StartFlush, rest, now);
    NeedsNoEventPrepend(StartFlush, rest);
    steps := [StartFlush] + rest;
  }

  /** A waiting callback that finds the lock free gets all pending events flushed. */
  lemma CallbackFlushesAll(g: Settings, w: Worker, id: nat, now: nat) returns (steps: seq<Step>)
    requires WorkerInv(g, w, now) && CanStep(g, w, TakeLock(id), now) && w.buffer.pending != []
    ensures RunSteps(g, w, steps, now).Some? && NeedsNoEvent(steps)
    ensures var v := RunSteps(g, w, steps, now).value;
            JustFlushed(w, v, w.buffer.pending) && v.pc == w.pc
    ensures steps != [] && steps[0] == TakeLock(id)
    ensures |steps| <= 2 * |g.filters| + 3
  {
    var v := DoStep(g, w, TakeLock(id), now);
    StepKeepsWorkerInv(g, w, TakeLock(id), now);
    CallbackFlushes(g, w, id, now);
    var rest := HolderFlushes(g, v, now);
    RunStepsPrepend(g, w, TakeLock(id), rest, now);
    NeedsNoEventPrepend(TakeLock(id), rest);
    steps := [TakeLock(id)] + rest;
  }

  /** The deadline of the pending events has come. */
  predicate Due(g: Settings, w: Worker, now: nat) {
    w.buffer.addedAt != [] && w.buffer.addedAt[0] + g.maxWait <= now
  }

  /** While the lock is free, due events are flushed by their timer. */
  lemma TimerFlushes(g: Settings, w: Worker, now: nat) returns (steps: seq<Step>)
    requires WorkerInv(g, w, now) && w.lock.Free? && w.buffer.pending != [] && Due(g, w, now)
    ensures RunSteps(g, w, steps, now).Some? && NeedsNoEvent(steps)
    ensures JustFlushed(w, RunSteps(g, w, steps, now).value, w.buffer.pending)
    ensures |steps| <= 2 * |g.filters| + 4
  {
    var id := w.buffer.timer.value;
    if id in w.buffer.fired {
      steps := CallbackFlushesAll(g, w, id, now);
    } else {
      var v := DoStep(g, w, Step.Fire(id), now);
      StepKeepsWorkerInv(g, w, Step.Fire(id), now);
      var rest := CallbackFlushesAll(g, v, id, now);
      RunStepsPrepend(g, w, Step.Fire(id), rest, now);
      NeedsNoEventPrepend(Step.Fire(id), rest);
      steps := [Step.Fire(id)] + rest;
    }
  }

  /** Whatever the worker, its flush and its callbacks are doing, due events get flushed. */
  lemma DueEventsGetFlushed(g: Settings, w: Worker, now: nat) returns (steps: seq<Step>)
    requires WorkerInv(g, w, now) && w.buffer.pending != [] && Due(g, w, now)
    ensures RunSteps(g, w, steps, now).Some? && NeedsNoEvent(steps)
    ensures JustFlushed(w, RunSteps(g, w, steps, now).value, w.buffer.pending)
    ensures |steps| <= 2 * |g.filters| + 5
  {
    if w.lock.Free? {
      steps := TimerFlushes(g, w, now);
    } else if MustFlush(g, w) {
      steps := HolderFlushes(g, w, now);
    } else {
      var v := DoStep(g, w, Release, now);
      StepKeepsWorkerInv(g, w, Release, now);
      var rest := TimerFlushes(g, v, now);
      RunStepsPrepend(g, w, Release, rest, now);
      NeedsNoEventPrepend(Release, rest);
      steps := [Release] + rest;
    }
  }

  // ----- the same steps in the pipeline

  function WorkOf(w: nat, steps: seq<Step>): seq<Action> {
    seq(|steps|, k requires 0 <= k < |steps| => Action.Work(w, steps[k]))
  }

  /** Nothing but worker `w` and the count of processed events has moved. */
  predicate OnlyWorkerMoved(s: State, t: State, w: nat)
    requires w < |s.workers|
  {
    && w < |t.workers|
    && t == s.(workers := s.workers[w := t.workers[w]], processed := t.processed, order := t.order)
  }

  lemma OneStepMoves(c: Config, s: State, w: nat, step: Step)
    requires Enabled(c, s, Action.Work(w, step))
    ensures var t := Next(c, s, Action.Work(w, step));
            OnlyWorkerMoved(s, t, w) && t.workers[w] == DoStep(c.settings, s.workers[w], step, s.now)
  {
  }

  lemma MovesCompose(s: State, t: State, u: State, w: nat)
    requires w < |s.workers| && OnlyWorkerMoved(s, t, w) && OnlyWorkerMoved(t, u, w)
    ensures OnlyWorkerMoved(s, u, w)
  {
    assert s.workers[w := t.workers[w]][w := u.workers[w]] == s.workers[w := u.workers[w]];
  }

  lemma {:induction false} LiftSteps(c: Config, s: State, w: nat, steps: seq<Step>)
    requires w < |s.workers| && RunSteps(c.settings, s.workers[w], steps, s.now).Some?
    ensures RunFrom(c, s, WorkOf(w, steps)).Some?
    ensures var t := RunFrom(c, s, WorkOf(w, steps)).value;
            OnlyWorkerMoved(s, t, w) && t.workers[w] == RunSteps(c.settings, s.workers[w], steps, s.now).value
    decreases |steps|
  {
    if steps == [] {
      assert s.workers[w := s.workers[w]] == s.workers;
    } else {
      var a, rest := Action.Work(w, steps[0]), steps[1..];
      OneStepMoves(c, s, w, steps[0]);
      var t := Next(c, s, a);
      LiftSteps(c, t, w, rest);
      RunFromPrepend(c, s, a, WorkOf(w, rest));
      assert WorkOf(w, steps) == [a] + WorkOf(w, rest);
      MovesCompose(s, t, RunFrom(c, t, WorkOf(w, rest)).value, w);
    }
  }

  /** How long until the oldest event of worker `w` has waited for the flush interval. */
  function Remaining(c: Config, s: State, w: nat): nat
    requires w < |s.workers| && s.workers[w].buffer.addedAt != []
  {
    var due := s.workers[w].buffer.addedAt[0] + c.settings.maxWait;
    if due <= s.now then 0 else due - s.now
  }

  /** The clock has run to the deadline, and nothing else has changed. */
  predicate Later(s: State, u: State, now: nat) {
    u == s.(now := now, order := u.order)
  }

  lemma TickMakesDue(c: Config, s: State, w: nat)
    requires Reachable(c, s) && w < |s.workers| && s.workers[w].buffer.pending != []
    ensures s.workers[w].buffer.addedAt != []
    ensures var u := Next(c, s, Tick(Remaining(c, s, w)));
            && Later(s, u, s.now + Remaining(c, s, w))
            && WorkerInv(c.settings, s.workers[w], u.now)
            && Due(c.settings, s.workers[w], u.now)
  {
    ReachableWorker(c, s, w);
    WorkerInvLater(c.settings, s.workers[w], s.now, s.now + Remaining(c, s, w));
  }

  lemma LaterMoves(s: State, u: State, t: State, w: nat, now: nat)
    requires w < |s.workers| && Later(s, u, now) && OnlyWorkerMoved(u, t, w)
    ensures OnlyWorkerMoved(s.(now := now), t, w) && t.now == now
  {
  }

  /** From every reachable state with events pending at a worker, whoever holds its lock: let
      the clock run to the deadline of the oldest, and a bounded run of steps of that worker's
      lock holder, timer, callback and plugin goroutines flushes them all as one batch. No
      event is sent, received or added on the way, and nothing else moves. */
  lemma PendingEventsGetFlushed(c: Config, s: State, w: nat) returns (steps: seq<Step>)
    requires Reachable(c, s) && w < |s.workers| && s.workers[w].buffer.pending != []
    ensures s.workers[w].buffer.addedAt != [] && NeedsNoEvent(steps)
    ensures |steps| <= 2 * |c.settings.filters| + 5
    ensures var run, now := [Tick(Remaining(c, s, w))] + WorkOf(w, steps), s.now + Remaining(c, s, w);
            && RunFrom(c, s, run).Some?
            && var t := RunFrom(c, s, run).value;
               && OnlyWorkerMoved(s.(now := now), t, w)
               && JustFlushed(s.workers[w], t.workers[w], s.workers[w].buffer.pending)
  {
    TickMakesDue(c, s, w);
    var tick := Tick(Remaining(c, s, w));
    assert Enabled(c, s, tick);
    var u := Next(c, s, tick);
    assert u.workers == s.workers;
    hide *;
    steps := DueEventsGetFlushed(c.settings, u.workers[w], u.now);
    LiftSteps(c, u, w, steps);
    RunFromPrepend(c, s, tick, WorkOf(w, steps));
    LaterMoves(s, u, RunFrom(c, u, WorkOf(w, steps)).value, w, s.now + Remaining(c, s, w));
  }

  lemma CallbackReady(c: Config, s: State, w: nat, id: nat)
    requires Reachable(c, s) && Enabled(c, s, Action.Work(w, TakeLock(id)))
    ensures w < |s.workers| && WorkerInv(c.settings, s.workers[w], s.now)
    ensures CanStep(c.settings, s.workers[w], TakeLock(id), s.now)
  {
    ReachableFlow(c, s);
  }

  /** From every reachable state in which a callback, stale or not, can take the lock with
      events pending, a bounded run that begins with it flushes them all as one batch. */
  lemma CallbackFlushesPending(c: Config, s: State, w: nat, id: nat) returns (steps: seq<Step>)
    requires Reachable(c, s) && Enabled(c, s, Action.Work(w, TakeLock(id)))
    requires s.workers[w].buffer.pending != []
    ensures steps != [] && steps[0] == TakeLock(id) && NeedsNoEvent(steps)
    ensures |steps| <= 2 * |c.settings.filters| + 3
    ensures RunFrom(c, s, WorkOf(w, steps)).Some?
    ensures var t := RunFrom(c, s, WorkOf(w, steps)).value;
            OnlyWorkerMoved(s, t, w) && JustFlushed(s.workers[w], t.workers[w], s.workers[w].buffer.pending)
  {
    CallbackReady(c, s, w, id);
    hide *;
    steps := CallbackFlushesAll(c.settings, s.workers[w], id, s.now);
    LiftSteps(c, s, w, steps);
  }

  // ----- a flush that is due is not skipped

  /** Owner `owner` of the lock is about to flush `batch`, or flushing it, or has done so; `before` is
      what had been flushed when it took the lock. */
  ghost predicate Committed(g: Settings, w: Worker, owner: Owner, batch: seq<Event>, before: seq<seq<Event>>) {
    || before + [batch] <= w.flushed
    || (&& w.lock == Held(owner) && w.flushed == before && batch != []
        && (owner.Loop? ==> w.pc.Flushing? || (w.pc.Adding? && |batch| >= g.batchSize))
        && if w.flight.NoFlight? then w.buffer.pending == batch else w.flight.batch == batch)
  }

  lemma StepKeepsCommitted(g: Settings, w: Worker, step: Step, now: nat, owner: Owner,
                           batch: seq<Event>, before: seq<seq<Event>>)
    requires CanStep(g, w, step, now) && Committed(g, w, owner, batch, before)
    ensures Committed(g, DoStep(g, w, step, now), owner, batch, before)
  {
  }

  lemma SelectKeepsCommitted(g: Settings, w: Worker, pc: Pc, owner: Owner, batch: seq<Event>, before: seq<seq<Event>>)
    requires w.pc.Selecting? && Committed(g, w, owner, batch, before)
    ensures Committed(g, w.(pc := pc), owner, batch, before)
  {
  }

  /** What an action can do to a worker: a step of its own, or its select receives or ends. */
  lemma WorkerMoves(c: Config, s: State, a: Action, w: nat)
    requires Enabled(c, s, a) && w < |s.workers|
    ensures var t := Next(c, s, a);
            && w < |t.workers|
            && (|| t.workers[w] == s.workers[w]
                || (a.Work? && CanStep(c.settings, s.workers[w], a.step, s.now)
                    && t.workers[w] == DoStep(c.settings, s.workers[w], a.step, s.now))
                || (s.workers[w].pc.Selecting? && t.workers[w] == s.workers[w].(pc := t.workers[w].pc)))
  {
  }

  lemma {:induction false} RunKeepsCommitted(c: Config, s: State, run: seq<Action>, w: nat, owner: Owner,
                                             batch: seq<Event>, before: seq<seq<Event>>)
    requires RunFrom(c, s, run).Some? && w < |s.workers|
    requires Committed(c.settings, s.workers[w], owner, batch, before)
    ensures var t := RunFrom(c, s, run).value;
            w < |t.workers| && Committed(c.settings, t.workers[w], owner, batch, before)
  {
    if run != [] {
      hide Enabled, Next, Committed, CanStep, DoStep;
      var front, a := run[..|run| - 1], run[|run| - 1];
      RunKeepsCommitted(c, s, front, w, owner, batch, before);
      var t := RunFrom(c, s, front).value;
      var v := Next(c, t, a).workers[w];
      WorkerMoves(c, t, a, w);
      if t.workers[w].pc.Selecting? && v == t.workers[w].(pc := v.pc) {
        SelectKeepsCommitted(c.settings, t.workers[w], v.pc, owner, batch, before);
      } else if v != t.workers[w] {
        StepKeepsCommitted(c.settings, t.workers[w], a.step, t.now, owner, batch, before);
      }
    }
  }

  /** In every run: an `Add` that has filled the batch, a final flush with events pending, and a
      callback, stale or not, that finds events pending keep the lock until exactly these events
      have been flushed as one batch. Nobody adds to them or gets the lock in between. */
  lemma FlushIsCertain(c: Config, s: State, w: nat, run: seq<Action>)
    requires w < |s.workers| && RunFrom(c, s, run).Some?
    requires s.workers[w].lock.Held? && s.workers[w].flight.NoFlight? && s.workers[w].buffer.pending != []
    requires s.workers[w].lock.owner.Loop? ==>
               || s.workers[w].pc.Flushing?
               || (s.workers[w].pc.Adding? && |s.workers[w].buffer.pending| >= c.settings.batchSize)
    ensures var t := RunFrom(c, s, run).value;
            w < |t.workers|
            && var v, u := s.workers[w], t.workers[w];
               || v.flushed + [v.buffer.pending] <= u.flushed
               || (u.lock == v.lock && u.flushed == v.flushed
                   && if u.flight.NoFlight? then u.buffer.pending == v.buffer.pending
                      else u.flight.batch == v.buffer.pending)
  {
    var v := s.workers[w];
    RunKeepsCommitted(c, s, run, w, v.lock.owner, v.buffer.pending, v.flushed);
  }
}
