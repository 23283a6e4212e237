/** The critical sections of a worker's batcher are the operations of the batcher: run without
    interruption, the steps between taking and releasing the lock do to buffer and batches
    what `Add`, the timer callback and `Flush` do. */
module Sections {
  import opened Workers
  import opened TimelyFlush
  import Batching

  /** The batcher of a worker as a value. */
  function View(w: Worker): Batching.BatcherState {
    Batching.BatcherState(w.buffer, w.flushed)
  }

  /** The lock holder flushes what is pending, or releases the lock if there is nothing to flush. */
  lemma HolderSettles(g: Settings, w: Worker, now: nat) returns (steps: seq<Step>)
    requires WorkerInv(g, w, now) && w.lock.Held? && w.flight.NoFlight?
    ensures RunSteps(g, w, steps, now).Some?
    ensures var v := RunSteps(g, w, steps, now).value;
            && v.lock.Free? && v.flight.NoFlight? && v.pc == AfterRelease(w)
            && View(v) == if MustFlush(g, w) then Batching.FlushNow(View(w)) else View(w)
  {
    if MustFlush(g, w) {
      steps := HolderFlushes(g, w, now);
    } else {
      steps := [Release];
      RunStepsPrepend(g, w, Release, [], now);
      assert [Release] + [] == [Release];
    }
  }

  /** The section of `Add`. */
  lemma AddSection(g: Settings, w: Worker, now: nat) returns (steps: seq<Step>)
    requires WorkerInv(g, w, now) && w.pc.Holding? && w.lock.Free?
    ensures RunSteps(g, w, [Step.AddEvent] + steps, now).Some?
    ensures var v := RunSteps(g, w, [Step.AddEvent] + steps, now).value;
            && v.lock.Free? && v.pc.Selecting?
            && View(v) == Batching.AddEvent(View(w), w.pc.event, now, g.batchSize, g.maxWait)
  {
    var locked := DoStep(g, w, Step.AddEvent, now);
    StepKeepsWorkerInv(g, w, Step.AddEvent, now);
    assert locked.flight.NoFlight?;
    steps := HolderSettles(g, locked, now);
    RunStepsPrepend(g, w, Step.AddEvent, steps, now);
    hide WorkerInv, RunSteps;
  }

  /** The section of a timer callback. */
  lemma CallbackSection(g: Settings, w: Worker, id: nat, now: nat) returns (steps: seq<Step>)
    requires WorkerInv(g, w, now) && CanStep(g, w, TakeLock(id), now)
    ensures RunSteps(g, w, [TakeLock(id)] + steps, now).Some?
    ensures var v := RunSteps(g, w, [TakeLock(id)] + steps, now).value;
            v.lock.Free? && v.pc == w.pc && View(v) == Batching.TimeoutNow(View(w), id)
  {
    var locked := DoStep(g, w, TakeLock(id), now);
    StepKeepsWorkerInv(g, w, TakeLock(id), now);
    assert locked.flight.NoFlight?;
    steps := HolderSettles(g, locked, now);
    RunStepsPrepend(g, w, TakeLock(id), steps, now);
    hide WorkerInv, RunSteps;
  }

  /** The section of the flush with which a worker leaves. */
  lemma FinalSection(g: Settings, w: Worker, now: nat) returns (steps: seq<Step>)
    requires WorkerInv(g, w, now) && CanStep(g, w, FinalFlush, now)
    ensures RunSteps(g, w, [FinalFlush] + steps, now).Some?
    ensures var v := RunSteps(g, w, [FinalFlush] + steps, now).value;
            v.lock.Free? && v.pc.Exited? && View(v) == Batching.FlushNow(View(w))
  {
    var locked := DoStep(g, w, FinalFlush, now);
    StepKeepsWorkerInv(g, w, FinalFlush, now);
    assert locked.flight.NoFlight?;
    steps := HolderSettles(g, locked, now);
    RunStepsPrepend(g, w, FinalFlush, steps, now);
    hide WorkerInv, RunSteps;
  }
}
