/** What a shutdown that times out can leave behind, as exact conditions on the state in
    which it is called. */
module ForcedShutdown {
  import opened Wrappers
  import opened Sequences
  import opened Events
  import opened Workers
  import opened Pipeline
  import opened Flow
  import opened Delivery
  import opened Drain

  predicate IsSuffix(lost: seq<Event>, queue: seq<Event>) {
    |lost| <= |queue| && lost == queue[|queue| - |lost|..]
  }

  /** `run` takes a closed pipeline to the error return and all workers out, with `lost` queued. */
  ghost predicate LeavesQueued(c: Config, s: State, run: seq<Action>, lost: seq<Event>) {
    match RunFrom(c, s, run)
    case None => false
    case Some(t) => t.shutdown.ReturnedError? && t.AllExited() && t.channel == lost
  }

  /** A shutdown called in `s` can lose exactly the queued events `lost`. */
  ghost predicate CanLose(c: Config, s: State, lost: seq<Event>)
    requires s.shutdown.NotCalled?
  {
    exists run :: LeavesQueued(c, Next(c, s, Close), run, lost)
  }

  // ----- no more than a suffix of the queue

  lemma ClosedStepShrinks(c: Config, s: State, a: Action)
    requires Enabled(c, s, a) && s.Closed()
    ensures var t := Next(c, s, a);
            t.Closed() && |t.workers| == |s.workers| && IsSuffix(t.channel, s.channel)
    ensures s.workers == [] ==> Next(c, s, a).channel == s.channel
  {
  }

  lemma SuffixOfSuffix(a: seq<Event>, b: seq<Event>, c: seq<Event>)
    requires IsSuffix(a, b) && IsSuffix(b, c)
    ensures IsSuffix(a, c)
  {
  }

  lemma {:induction false} ClosedRunShrinks(c: Config, s: State, run: seq<Action>)
    requires RunFrom(c, s, run).Some? && s.Closed()
    ensures var t := RunFrom(c, s, run).value;
            t.Closed() && |t.workers| == |s.workers| && IsSuffix(t.channel, s.channel)
    ensures s.workers == [] ==> RunFrom(c, s, run).value.channel == s.channel
  {
    if run != [] {
      hide IsSuffix, Enabled, Next;
      var front, a := run[..|run| - 1], run[|run| - 1];
      ClosedRunShrinks(c, s, front);
      var t := RunFrom(c, s, front).value;
      ClosedStepShrinks(c, t, a);
      SuffixOfSuffix(Next(c, t, a).channel, t.channel, s.channel);
    } else {
      assert IsSuffix(s.channel, s.channel);
    }
  }

  // ----- every suffix of the queue

  /** The last `keep` events are still queued, and no worker leaves before only they are. */
  ghost predicate Keeping(s: State, keep: nat) {
    && s.Cancelled()
    && keep <= |s.channel|
    && (keep < |s.channel| ==> forall w :: 0 <= w < |s.workers| ==> !Leaving(s.workers[w].pc))
  }

  /** Both queues end with the same `keep` events. */
  predicate SameEnd(q: seq<Event>, r: seq<Event>, keep: nat) {
    keep <= |q| && keep <= |r| && q[|q| - keep..] == r[|r| - keep..]
  }

  /** A step that moves worker `w` on and receives no event of the last `keep`. */
  ghost function KeepingStep(c: Config, s: State, w: nat, keep: nat): Action
    requires w < |s.workers|
  {
    var v := s.workers[w];
    if v.lock.Held? then Action.Work(w, HolderStep(c.settings, v))
    else if v.pc.Holding? then Action.Work(w, AddEvent)
    else if v.pc.Closing? then Action.Work(w, FinalFlush)
    else if keep < |s.channel| then Receive(w)
    else Observe(w)
  }

  /** Worker steps, and receives only while more than `keep` events are queued. */
  predicate SparesLast(s: State, a: Action, keep: nat) {
    a.Work? || (a.Receive? && keep < |s.channel|) || (a.Observe? && keep == |s.channel|)
  }

  lemma KeepingStepPossible(c: Config, s: State, w: nat, keep: nat)
    requires FlowInv(c, s) && Keeping(s, keep) && w < |s.workers| && !s.workers[w].pc.Exited?
    ensures var a := KeepingStep(c, s, w, keep); Enabled(c, s, a) && SparesLast(s, a, keep)
  {
    assert WorkerInv(c.settings, s.workers[w], s.now);
    if s.workers[w].lock.Held? {
      HolderCanStep(c.settings, s.workers[w], s.now);
    }
  }

  lemma WorkKeeps(c: Config, s: State, w: nat, step: Step, keep: nat)
    requires Keeping(s, keep) && Enabled(c, s, Action.Work(w, step))
    requires WorkerInv(c.settings, s.workers[w], s.now)
    ensures var t := Next(c, s, Action.Work(w, step));
            Keeping(t, keep) && t.shutdown == s.shutdown && SameEnd(t.channel, s.channel, keep)
  {
    StepLeaving(c.settings, s.workers[w], step, s.now);
    hide WorkerInv, DoStep, CanStep;
  }

  lemma ReceiveKeeps(c: Config, s: State, w: nat, keep: nat)
    requires Keeping(s, keep) && Enabled(c, s, Receive(w)) && keep < |s.channel|
    ensures var t := Next(c, s, Receive(w));
            Keeping(t, keep) && t.shutdown == s.shutdown && SameEnd(t.channel, s.channel, keep)
  {
  }

  lemma ObserveKeeps(c: Config, s: State, w: nat, keep: nat)
    requires Keeping(s, keep) && Enabled(c, s, Observe(w)) && keep == |s.channel|
    ensures var t := Next(c, s, Observe(w));
            Keeping(t, keep) && t.shutdown == s.shutdown && SameEnd(t.channel, s.channel, keep)
  {
  }

  lemma SparingStepKeeps(c: Config, s: State, a: Action, keep: nat)
    requires FlowInv(c, s) && Keeping(s, keep) && Enabled(c, s, a) && SparesLast(s, a, keep)
    ensures var t := Next(c, s, a);
            Keeping(t, keep) && t.shutdown == s.shutdown && SameEnd(t.channel, s.channel, keep)
  {
    if a.Work? {
      assert WorkerInv(c.settings, s.workers[a.worker], s.now);
    }
    hide WorkerInv, Enabled, Next, FlowInv, Keeping, SameEnd;
    match a
    case Work(w, step) => WorkKeeps(c, s, w, step, keep);
    case Receive(w) => ReceiveKeeps(c, s, w, keep);
    case Observe(w) => ObserveKeeps(c, s, w, keep);
  }

  /** While a worker is alive some step brings the pipeline nearer to the loss. */
  lemma SomeStepKeeps(c: Config, s: State, keep: nat) returns (a: Action)
    requires FlowInv(c, s) && Keeping(s, keep) && !s.AllExited()
    ensures Enabled(c, s, a)
    ensures var t := Next(c, s, a);
            && FlowInv(c, t) && Keeping(t, keep) && t.shutdown == s.shutdown
            && SameEnd(t.channel, s.channel, keep)
            && TotalWork(c, t) < TotalWork(c, s)
  {
    var w: nat :| w < |s.workers| && !s.workers[w].pc.Exited?;
    a := KeepingStep(c, s, w, keep);
    KeepingStepPossible(c, s, w, keep);
    hide FlowInv, TotalWork, KeepingStep, Enabled, Next;
    SparingStepKeeps(c, s, a, keep);
    StepCosts(c, s, a);
    StepKeepsFlowInv(c, s, a);
  }

  lemma SuffixStays(lost: seq<Event>, q: seq<Event>, r: seq<Event>)
    requires IsSuffix(lost, q) && SameEnd(r, q, |lost|)
    ensures IsSuffix(lost, r)
  {
  }

  /** When all workers are gone, nothing but the last events is queued. */
  lemma AllGone(c: Config, s: State, lost: seq<Event>)
    requires Keeping(s, |lost|) && s.workers != [] && IsSuffix(lost, s.channel) && s.AllExited()
    ensures LeavesQueued(c, s, [], lost)
  {
    assert Leaving(s.workers[0].pc);
  }

  /** With a worker and a cancelled context the workers can all leave with exactly the last
      events `lost` still queued. */
  lemma LeaveBehind(c: Config, s: State, lost: seq<Event>) returns (run: seq<Action>)
    requires FlowInv(c, s) && Keeping(s, |lost|) && c.workers > 0 && IsSuffix(lost, s.channel)
    ensures LeavesQueued(c, s, run, lost)
    ensures |run| <= TotalWork(c, s)
    decreases TotalWork(c, s)
  {
    assert s.workers != [];
    hide FlowInv, TotalWork, Enabled, Next, RunFrom, Keeping, IsSuffix, SameEnd;
    if s.AllExited() {
      AllGone(c, s, lost);
      run := [];
    } else {
      var a := SomeStepKeeps(c, s, |lost|);
      SuffixStays(lost, s.channel, Next(c, s, a).channel);
      var rest := LeaveBehind(c, Next(c, s, a), lost);
      RunFromPrepend(c, s, a, rest);
      run := [a] + rest;
    }
  }

  /** Closing and timing out moves no event and no worker. */
  function TimedOut(c: Config, s: State): State
    requires s.shutdown.NotCalled?
  {
    Next(c, Next(c, s, Close), TimeOut)
  }

  lemma CloseAndTimeOut(c: Config, s: State)
    requires s.shutdown.NotCalled?
    ensures RunFrom(c, Next(c, s, Close), [TimeOut]) == Some(TimedOut(c, s))
    ensures var t := TimedOut(c, s);
            && t.channel == s.channel && t.workers == s.workers
            && t.sent == s.sent && t.processed == s.processed && t.shutdown.ReturnedError?
  {
    var closed := Next(c, s, Close);
    RunFromAppend(c, closed, [], TimeOut);
    assert [] + [TimeOut] == [TimeOut];
  }

  lemma TimedOutKeepsFlow(c: Config, s: State)
    requires s.shutdown.NotCalled? && FlowInv(c, s)
    ensures FlowInv(c, TimedOut(c, s))
  {
    var closed := Next(c, s, Close);
    assert Enabled(c, closed, TimeOut);
    hide FlowInv, Next, Enabled;
    StepKeepsFlowInv(c, s, Close);
    StepKeepsFlowInv(c, closed, TimeOut);
  }

  lemma SuffixCanBeLost(c: Config, s: State, lost: seq<Event>)
    requires s.shutdown.NotCalled? && FlowInv(c, s) && ShutdownInv(s)
    requires lost == s.channel || (c.workers > 0 && IsSuffix(lost, s.channel))
    ensures CanLose(c, s, lost)
  {
    CloseAndTimeOut(c, s);
    TimedOutKeepsFlow(c, s);
    var closed, t := Next(c, s, Close), TimedOut(c, s);
    hide TimedOut;
    if c.workers == 0 {
      assert LeavesQueued(c, closed, [TimeOut], s.channel);
    } else {
      assert Keeping(t, |lost|) && IsSuffix(lost, t.channel);
      hide FlowInv, RunFrom, Next;
      var run := LeaveBehind(c, t, lost);
      RunsCompose(c, closed, [TimeOut], run);
      assert LeavesQueued(c, closed, [TimeOut] + run, lost);
    }
  }

  /** What a forced shutdown can lose from the channel: with a worker exactly each suffix of
      what is queued when it is called, the whole queue included; without one, the queue. */
  lemma QueuedLossesExactly(c: Config, s: State, lost: seq<Event>)
    requires Reachable(c, s) && s.shutdown.NotCalled?
    ensures CanLose(c, s, lost)
       <==> lost == s.channel || (c.workers > 0 && IsSuffix(lost, s.channel))
  {
    ReachableFlow(c, s);
    var closed := Next(c, s, Close);
    if CanLose(c, s, lost) {
      var run :| LeavesQueued(c, closed, run, lost);
      ClosedRunShrinks(c, closed, run);
    }
    if lost == s.channel || (c.workers > 0 && IsSuffix(lost, s.channel)) {
      SuffixCanBeLost(c, s, lost);
    }
  }

  /** `run` ends with all workers gone and an event lost in the channel. */
  ghost predicate StrandsAnEvent(c: Config, s: State, run: seq<Action>) {
    match RunFrom(c, s, run)
    case None => false
    case Some(t) => t.AllExited() && t.channel != []
  }

  /** A shutdown is sure to lose nothing from the channel, however it ends, exactly when the
      channel is empty when it is called. */
  lemma NothingQueuedIsLostExactly(c: Config, s: State)
    requires Reachable(c, s) && s.shutdown.NotCalled?
    ensures (exists run :: StrandsAnEvent(c, Next(c, s, Close), run)) <==> s.channel != []
  {
    var closed := Next(c, s, Close);
    if s.channel != [] {
      QueuedLossesExactly(c, s, s.channel);
      var run :| LeavesQueued(c, closed, run, s.channel);
      assert StrandsAnEvent(c, closed, run);
    }
    if exists run :: StrandsAnEvent(c, closed, run) {
      var run :| StrandsAnEvent(c, closed, run);
      ClosedRunShrinks(c, closed, run);
    }
  }

  // ----- the state in which the caller is left

  /** At every reachable state, the error return included, what was sent and is not counted
      as processed is in the channel or with a worker. */
  lemma UnprocessedIsQueuedOrHeld(c: Config, s: State)
    requires Reachable(c, s)
    ensures |s.sent| - s.processed == |s.channel| + Sum(s.workers, Backlog)
  {
    ReachableFlow(c, s);
    SentAddsUp(c, s);
  }

  /** `run` ends right after the error return or later, with `n` sent events not yet processed. */
  ghost predicate ReturnsErrorWith(c: Config, s: State, run: seq<Action>, n: int) {
    match RunFrom(c, s, run)
    case None => false
    case Some(t) => t.shutdown.ReturnedError? && |t.sent| - t.processed == n
  }

  lemma ClosedStepProcesses(c: Config, s: State, a: Action)
    requires Enabled(c, s, a) && s.Closed()
    ensures var t := Next(c, s, a); t.Closed() && t.sent == s.sent && s.processed <= t.processed
  {
  }

  lemma {:induction false} ClosedRunProcesses(c: Config, s: State, run: seq<Action>)
    requires RunFrom(c, s, run).Some? && s.Closed()
    ensures var t := RunFrom(c, s, run).value; t.Closed() && t.sent == s.sent && s.processed <= t.processed
  {
    if run != [] {
      hide Enabled, Next;
      var front := run[..|run| - 1];
      ClosedRunProcesses(c, s, front);
      ClosedStepProcesses(c, RunFrom(c, s, front).value, run[|run| - 1]);
    }
  }

  /** A shutdown can return its error with events unprocessed exactly when there are some
      when it is called; at worst all of them, and never more. */
  lemma ErrorReturnExactly(c: Config, s: State)
    requires Reachable(c, s) && s.shutdown.NotCalled?
    ensures (exists run, n :: n > 0 && ReturnsErrorWith(c, Next(c, s, Close), run, n)) <==> s.processed < |s.sent|
    ensures exists run, n :: n == |s.sent| - s.processed && ReturnsErrorWith(c, Next(c, s, Close), run, n)
    ensures forall run, n :: ReturnsErrorWith(c, Next(c, s, Close), run, n) ==> n <= |s.sent| - s.processed
  {
    ReachableFlow(c, s);
    var closed := Next(c, s, Close);
    CloseAndTimeOut(c, s);
    assert ReturnsErrorWith(c, closed, [TimeOut], |s.sent| - s.processed);
    forall run, n | ReturnsErrorWith(c, closed, run, n)
      ensures n <= |s.sent| - s.processed
    {
      ClosedRunProcesses(c, closed, run);
    }
  }
}
