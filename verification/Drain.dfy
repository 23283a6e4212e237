/** Shutting down terminates: after the channel is closed, every step of the worker side
    uses up work, and while a worker is alive such a step is possible. */
module Drain {
  import opened Wrappers
  import opened Sequences
  import opened Events
  import opened Workers
  import opened Pipeline
  import opened Flow

  /** The steps of workers, flushes, timers and timer callbacks. */
  predicate WorkerSide(a: Action) {
    a.Receive? || a.Observe? || a.Work?
  }

  /** What is left to do: for each queued event a receive and all that can follow, and
      the work of each worker. */
  function TotalWork(c: Config, s: State): nat {
    Times(|s.channel|, EventWork(|c.settings.filters|) + 6) + Sum(s.workers, Workers.Work)
  }

  /** Number of worker-side steps of a run. */
  function WorkerSteps(run: seq<Action>): nat {
    if run == [] then 0
    else WorkerSteps(run[..|run| - 1]) + if WorkerSide(run[|run| - 1]) then 1 else 0
  }

  lemma ReplaceCosts(workers: seq<Worker>, w: nat, v: Worker, saved: nat)
    requires w < |workers| && Workers.Work(v) + saved <= Workers.Work(workers[w])
    ensures Sum(workers[w := v], Workers.Work) + saved <= Sum(workers, Workers.Work)
  {
    SumUpdate(workers, w, v, Workers.Work);
  }

  lemma WorkStepCosts(c: Config, s: State, w: nat, step: Step)
    requires FlowInv(c, s) && Enabled(c, s, Action.Work(w, step))
    ensures TotalWork(c, Next(c, s, Action.Work(w, step))) < TotalWork(c, s)
  {
    StepCostsWork(c.settings, s.workers[w], step, s.now);
    hide WorkerInv, DoStep, Workers.Work, Sum, StreamInv;
    ReplaceCosts(s.workers, w, DoStep(c.settings, s.workers[w], step, s.now), 1);
  }

  lemma HoldingWork(g: Settings, w: Worker, e: Event, now: nat)
    requires WorkerInv(g, w, now) && w.pc.Selecting?
    ensures Workers.Work(w.(pc := Holding(e))) == Workers.Work(w) + EventWork(|g.filters|) + 5
  {
  }

  lemma ClosingWork(w: Worker)
    requires w.pc.Selecting?
    ensures Workers.Work(w.(pc := Closing)) + 1 == Workers.Work(w)
  {
  }

  lemma ReceiveCosts(c: Config, s: State, w: nat)
    requires FlowInv(c, s) && Enabled(c, s, Receive(w))
    ensures TotalWork(c, Next(c, s, Receive(w))) < TotalWork(c, s)
  {
    var v := s.workers[w].(pc := Holding(s.channel[0]));
    HoldingWork(c.settings, s.workers[w], s.channel[0], s.now);
    hide WorkerInv, Workers.Work, Sum, StreamInv;
    SumUpdate(s.workers, w, v, Workers.Work);
  }

  lemma ObserveFrame(c: Config, s: State, w: nat)
    requires Enabled(c, s, Observe(w))
    ensures var t := Next(c, s, Observe(w));
            t.workers == s.workers[w := s.workers[w].(pc := Closing)] && t.channel == s.channel
  {
  }

  lemma ObserveCosts(c: Config, s: State, w: nat)
    requires Enabled(c, s, Observe(w))
    ensures TotalWork(c, Next(c, s, Observe(w))) < TotalWork(c, s)
  {
    ObserveFrame(c, s, w);
    ClosingWork(s.workers[w]);
    hide Workers.Work, Sum, Next, Times;
    ReplaceCosts(s.workers, w, s.workers[w].(pc := Closing), 1);
  }

  /** Once the channel is closed nothing else adds work, and it stays closed. */
  lemma OthersKeepWork(c: Config, s: State, a: Action)
    requires Enabled(c, s, a) && s.Closed() && !WorkerSide(a)
    ensures var t := Next(c, s, a); t.channel == s.channel && t.workers == s.workers && t.Closed()
  {
  }

  lemma StaysClosed(c: Config, s: State, a: Action)
    requires Enabled(c, s, a) && s.Closed()
    ensures Next(c, s, a).Closed()
  {
  }

  lemma OthersCostNothing(c: Config, s: State, a: Action)
    requires Enabled(c, s, a) && s.Closed() && !WorkerSide(a)
    ensures TotalWork(c, Next(c, s, a)) == TotalWork(c, s)
  {
    OthersKeepWork(c, s, a);
    hide Enabled, Next, Workers.Work, Sum;
  }

  lemma StepCosts(c: Config, s: State, a: Action)
    requires FlowInv(c, s) && Enabled(c, s, a) && s.Closed()
    ensures WorkerSide(a) ==> TotalWork(c, Next(c, s, a)) < TotalWork(c, s)
    ensures !WorkerSide(a) ==> TotalWork(c, Next(c, s, a)) == TotalWork(c, s)
  {
    hide FlowInv, Enabled, Next, TotalWork;
    match a
    case Work(w, step) => WorkStepCosts(c, s, w, step);
    case Receive(w) => ReceiveCosts(c, s, w);
    case Observe(w) => ObserveCosts(c, s, w);
    case _ => OthersCostNothing(c, s, a);
  }

  /** After the channel is closed, no run holds more worker-side steps than the work that
      was left, however the other goroutines, the clock and late `Submit` calls interleave. */
  lemma {:induction false} DrainIsBounded(c: Config, s: State, run: seq<Action>)
    requires FlowInv(c, s) && s.Closed() && RunFrom(c, s, run).Some?
    ensures var t := RunFrom(c, s, run).value;
            && FlowInv(c, t) && t.Closed()
            && WorkerSteps(run) + TotalWork(c, t) <= TotalWork(c, s)
  {
    if run != [] {
      hide FlowInv, TotalWork;
      var front, a := run[..|run| - 1], run[|run| - 1];
      DrainIsBounded(c, s, front);
      var t := RunFrom(c, s, front).value;
      StepCosts(c, t, a);
      StepKeepsFlowInv(c, t, a);
      StaysClosed(c, t, a);
    }
  }

  /** A step with which worker `w`, or the callback that blocks it, moves on. */
  ghost function LiveStep(c: Config, s: State, w: nat): Action
    requires w < |s.workers| && s.Closed()
  {
    var v := s.workers[w];
    if v.lock.Held? then Action.Work(w, HolderStep(c.settings, v))
    else if v.pc.Holding? then Action.Work(w, AddEvent)
    else if v.pc.Closing? then Action.Work(w, FinalFlush)
    else if s.channel != [] then Receive(w)
    else Observe(w)
  }

  /** After the channel is closed, every live worker can be moved on at once: no step has to
      wait for a timer or for another worker, provided each `WriteBatch` returns. */
  lemma LiveWorkersCanStep(c: Config, s: State, w: nat)
    requires FlowInv(c, s) && s.Closed() && w < |s.workers| && !s.workers[w].pc.Exited?
    ensures var a := LiveStep(c, s, w);
            && Enabled(c, s, a) && WorkerSide(a)
            && (a.Work? ==> !a.step.Fire?)
  {
    assert WorkerInv(c.settings, s.workers[w], s.now);
    if s.workers[w].lock.Held? {
      HolderCanStep(c.settings, s.workers[w], s.now);
    }
  }

  lemma SomeStepDrains(c: Config, s: State) returns (a: Action)
    requires FlowInv(c, s) && s.Closed() && !s.AllExited()
    ensures Enabled(c, s, a) && WorkerSide(a) && (a.Work? ==> !a.step.Fire?)
    ensures FlowInv(c, Next(c, s, a)) && Next(c, s, a).Closed()
    ensures TotalWork(c, Next(c, s, a)) < TotalWork(c, s)
  {
    var w: nat :| w < |s.workers| && !s.workers[w].pc.Exited?;
    hide FlowInv, TotalWork, LiveStep, Enabled, Next;
    a := LiveStep(c, s, w);
    LiveWorkersCanStep(c, s, w);
    StepCosts(c, s, a);
    StepKeepsFlowInv(c, s, a);
    StaysClosed(c, s, a);
  }

  /** Only worker-side steps, and none that has to wait for a deadline. */
  predicate WorkerOnly(run: seq<Action>) {
    forall k :: 0 <= k < |run| ==> WorkerSide(run[k]) && (run[k].Work? ==> !run[k].step.Fire?)
  }

  lemma WorkerOnlyPrepend(a: Action, run: seq<Action>)
    requires WorkerOnly(run) && WorkerSide(a) && (a.Work? ==> !a.step.Fire?)
    ensures WorkerOnly([a] + run)
  {
  }

  /** From every state with a closed channel, some run of worker-side steps, none of them
      a timer firing, ends with all workers gone. */
  lemma DrainCompletes(c: Config, s: State) returns (run: seq<Action>)
    requires FlowInv(c, s) && s.Closed()
    ensures RunFrom(c, s, run).Some? && RunFrom(c, s, run).value.AllExited()
    ensures |run| <= TotalWork(c, s)
    ensures WorkerOnly(run)
    decreases TotalWork(c, s)
  {
    if s.AllExited() {
      run := [];
    } else {
      hide FlowInv, TotalWork, Enabled, Next, RunFrom, WorkerSide, WorkerOnly;
      var a := SomeStepDrains(c, s);
      var rest := DrainCompletes(c, Next(c, s, a));
      RunFromPrepend(c, s, a, rest);
      WorkerOnlyPrepend(a, rest);
      run := [a] + rest;
    }
  }

  lemma WorkerSideFrame(c: Config, s: State, a: Action)
    requires Enabled(c, s, a) && WorkerSide(a)
    ensures Next(c, s, a).shutdown == s.shutdown
  {
  }

  lemma {:induction false} WorkerSideKeepsShutdown(c: Config, s: State, run: seq<Action>)
    requires RunFrom(c, s, run).Some?
    requires WorkerOnly(run)
    ensures RunFrom(c, s, run).value.shutdown == s.shutdown
  {
    if run != [] {
      var front := run[..|run| - 1];
      WorkerSideKeepsShutdown(c, s, front);
      WorkerSideFrame(c, RunFrom(c, s, front).value, run[|run| - 1]);
    }
  }

  lemma ReturnsNil(c: Config, s: State, run: seq<Action>)
    requires s.shutdown.Waiting? && RunFrom(c, s, run).Some? && RunFrom(c, s, run).value.AllExited()
    requires WorkerOnly(run)
    ensures var t := RunFrom(c, s, run + [ReturnNil]); t.Some? && t.value.shutdown.ReturnedNil?
  {
    WorkerSideKeepsShutdown(c, s, run);
    RunFromAppend(c, s, run, ReturnNil);
  }

  /** However far a pipeline has got when `Shutdown` is waiting, in some continuation of
      bounded length, made of worker-side steps alone, `Shutdown` returns without an error. */
  lemma WaitingShutdownCanFinish(c: Config, s: State) returns (run: seq<Action>)
    requires Reachable(c, s) && s.shutdown.Waiting?
    ensures RunFrom(c, s, run).Some? && RunFrom(c, s, run).value.shutdown.ReturnedNil?
    ensures Reachable(c, RunFrom(c, s, run).value)
    ensures |run| <= TotalWork(c, s) + 1
  {
    ReachableFlow(c, s);
    hide *;
    var drain := DrainCompletes(c, s);
    ReturnsNil(c, s, drain);
    run := drain + [ReturnNil];
    ReachesFurther(c, s, run, RunFrom(c, s, run).value);
  }

  /** In no continuation does the worker side take more steps than the work that was left. */
  lemma NoDrainRunsForever(c: Config, s: State, run: seq<Action>)
    requires Reachable(c, s) && s.Closed() && RunFrom(c, s, run).Some?
    ensures WorkerSteps(run) <= TotalWork(c, s)
  {
    ReachableFlow(c, s);
    DrainIsBounded(c, s, run);
  }
}
