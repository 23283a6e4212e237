/** Conservation of events: what every reachable state of the pipeline keeps about where
    the sent events are, and what that means for order, memory and shutdown. */
module Flow {
  import opened Wrappers
  import opened Sequences
  import opened Events
  import opened Workers
  import opened Pipeline

  /** The received events in the order of the receives. */
  function All(taken: seq<Take>): seq<Event> {
    if taken == [] then [] else All(taken[..|taken| - 1]) + [taken[|taken| - 1].event]
  }

  /** The events worker `w` received, in order. */
  function Of(taken: seq<Take>, w: nat): seq<Event> {
    if taken == [] then []
    else
      Of(taken[..|taken| - 1], w)
      + if taken[|taken| - 1].worker == w then [taken[|taken| - 1].event] else []
  }

  lemma TakenAppend(taken: seq<Take>, t: Take, w: nat)
    ensures All(taken + [t]) == All(taken) + [t.event]
    ensures Of(taken + [t], w) == Of(taken, w) + if t.worker == w then [t.event] else []
  {
    assert (taken + [t])[..|taken|] == taken;
  }

  lemma {:induction false} AllLength(taken: seq<Take>)
    ensures |All(taken)| == |taken|
  {
    if taken != [] {
      AllLength(taken[..|taken| - 1]);
    }
  }

  /** `merged` is an order-preserving interleaving of `streams`. */
  ghost predicate Interleaves(streams: seq<seq<Event>>, merged: seq<Event>) {
    exists taken: seq<Take> ::
      && All(taken) == merged
      && (forall i :: 0 <= i < |taken| ==> taken[i].worker < |streams|)
      && (forall w :: 0 <= w < |streams| ==> Of(taken, w) == streams[w])
  }

  // ----- the invariant

  ghost predicate WorkersInv(g: Settings, workers: seq<Worker>, now: nat) {
    forall w :: 0 <= w < |workers| ==> WorkerInv(g, workers[w], now)
  }

  /** What was sent is what was received followed by the channel; what one worker
      received is its stream. */
  ghost predicate StreamInv(sent: seq<Event>, taken: seq<Take>, channel: seq<Event>, workers: seq<Worker>) {
    && sent == All(taken) + channel
    && StreamsInv(taken, workers)
  }

  ghost predicate StreamsInv(taken: seq<Take>, workers: seq<Worker>) {
    && (forall i :: 0 <= i < |taken| ==> taken[i].worker < |workers|)
    && (forall w :: 0 <= w < |workers| ==> Of(taken, w) == Stream(workers[w]))
  }

  ghost predicate FlowInv(c: Config, s: State) {
    && |s.workers| == c.workers
    && WorkersInv(c.settings, s.workers, s.now)
    && StreamInv(s.sent, s.taken, s.channel, s.workers)
    && |s.channel| <= c.capacity
    && s.processed == Sum(s.workers, Completed)
  }

  predicate Leaving(pc: Pc) {
    pc.Closing? || pc.Flushing? || pc.Exited?
  }

  /** No worker leaves before the channel is closed and, unless it is forced to, empty. */
  ghost predicate ShutdownInv(s: State) {
    && (forall w :: 0 <= w < |s.workers| && Leaving(s.workers[w].pc) ==>
          s.Closed() && (s.channel == [] || s.Cancelled()))
    && (s.shutdown.ReturnedNil? ==> s.AllExited())
  }

  lemma {:induction false} InitialSum(g: Settings, n: nat)
    ensures Sum(seq(n, _ => InitialWorker(g)), Completed) == 0
  {
    SumZero(seq(n, _ => InitialWorker(g)), Completed);
  }

  lemma InitFlowInv(c: Config)
    ensures FlowInv(c, Init(c)) && ShutdownInv(Init(c))
  {
    InitialWorkerInv(c.settings);
    InitialSum(c.settings, c.workers);
  }

  /** The workers with worker `w` replaced by one that received the same events. */
  lemma ReplaceWorker(g: Settings, workers: seq<Worker>, now: nat, taken: seq<Take>, w: nat, v: Worker)
    requires WorkersInv(g, workers, now) && StreamsInv(taken, workers)
    requires w < |workers| && WorkerInv(g, v, now) && Stream(v) == Stream(workers[w])
    ensures WorkersInv(g, workers[w := v], now) && StreamsInv(taken, workers[w := v])
    ensures Sum(workers[w := v], Completed)
         == Sum(workers, Completed) - Completed(workers[w]) + Completed(v)
  {
    hide WorkerInv, Of, Stream, Completed, Sum;
    SumUpdate(workers, w, v, Completed);
  }

  lemma WorkerSteps(g: Settings, workers: seq<Worker>, now: nat, taken: seq<Take>, w: nat, step: Step)
    requires WorkersInv(g, workers, now) && StreamsInv(taken, workers)
    requires w < |workers| && CanStep(g, workers[w], step, now)
    ensures var workers' := workers[w := DoStep(g, workers[w], step, now)];
            && WorkersInv(g, workers', now)
            && StreamsInv(taken, workers')
            && Sum(workers', Completed)
               == Sum(workers, Completed) + if step.FinishFlush? then |workers[w].flight.batch| else 0
  {
    StepKeepsWorkerInv(g, workers[w], step, now);
    StepKeepsStream(g, workers[w], step, now);
    ReplaceWorker(g, workers, now, taken, w, DoStep(g, workers[w], step, now));
  }

  lemma WorkKeepsFlowInv(c: Config, s: State, w: nat, step: Step)
    requires FlowInv(c, s) && Enabled(c, s, Work(w, step))
    ensures FlowInv(c, Next(c, s, Work(w, step)))
  {
    hide WorkersInv, StreamsInv, DoStep, Sum, All;
    WorkerSteps(c.settings, s.workers, s.now, s.taken, w, step);
  }

  /** A receive appends to one worker's stream and to the record of receives. */
  lemma TakeEvent(g: Settings, workers: seq<Worker>, now: nat, taken: seq<Take>, w: nat, e: Event)
    requires WorkersInv(g, workers, now) && StreamsInv(taken, workers)
    requires w < |workers| && workers[w].pc.Selecting?
    ensures var workers' := workers[w := workers[w].(pc := Holding(e))];
            && All(taken + [Take(w, e)]) == All(taken) + [e]
            && WorkersInv(g, workers', now)
            && StreamsInv(taken + [Take(w, e)], workers')
            && Sum(workers', Completed) == Sum(workers, Completed)
  {
    var v := workers[w].(pc := Holding(e));
    LeaveSelect(g, workers[w], Holding(e), now);
    SumUpdate(workers, w, v, Completed);
    TakenAppend(taken, Take(w, e), w);
    forall u | 0 <= u < |workers|
      ensures Of(taken + [Take(w, e)], u) == Stream(workers[w := v][u])
    {
      TakenAppend(taken, Take(w, e), u);
    }
  }

  lemma SentAppends(sent: seq<Event>, received: seq<Event>, channel: seq<Event>, e: Event)
    requires sent == received + channel
    ensures sent + [e] == received + (channel + [e])
    ensures channel == [] ==> sent + [e] == (received + [e]) + channel
  {
  }

  lemma ReceiveKeepsFlowInv(c: Config, s: State, w: nat)
    requires FlowInv(c, s) && Enabled(c, s, Receive(w))
    ensures FlowInv(c, Next(c, s, Receive(w)))
  {
    var e := s.channel[0];
    TakeEvent(c.settings, s.workers, s.now, s.taken, w, e);
    HeadMoves(s.sent, All(s.taken), s.channel);
  }

  lemma HandoffKeepsFlowInv(c: Config, s: State, i: nat, w: nat)
    requires FlowInv(c, s) && Enabled(c, s, Handoff(i, w))
    ensures FlowInv(c, Next(c, s, Handoff(i, w)))
  {
    TakeEvent(c.settings, s.workers, s.now, s.taken, w, s.calls[i].event);
    SentAppends(s.sent, All(s.taken), s.channel, s.calls[i].event);
  }

  lemma ObserveKeepsFlowInv(c: Config, s: State, w: nat)
    requires FlowInv(c, s) && Enabled(c, s, Observe(w))
    ensures FlowInv(c, Next(c, s, Observe(w)))
  {
    var v := s.workers[w].(pc := Closing);
    LeaveSelect(c.settings, s.workers[w], Closing, s.now);
    assert Stream(v) == Stream(s.workers[w]);
    ReplaceWorker(c.settings, s.workers, s.now, s.taken, w, v);
  }

  lemma TickKeepsWorkersInv(g: Settings, workers: seq<Worker>, now: nat, later: nat)
    requires WorkersInv(g, workers, now) && now <= later
    ensures WorkersInv(g, workers, later)
  {
    forall w | 0 <= w < |workers|
      ensures WorkerInv(g, workers[w], later)
    {
      WorkerInvLater(g, workers[w], now, later);
    }
  }

  lemma SendKeepsFlowInv(c: Config, s: State, i: nat)
    requires FlowInv(c, s) && Enabled(c, s, Send(i))
    ensures FlowInv(c, Next(c, s, Send(i)))
  {
    SentAppends(s.sent, All(s.taken), s.channel, s.calls[i].event);
  }

  /** The actions that leave the events where they are. */
  predicate Bystander(a: Action) {
    !a.Work? && !a.Receive? && !a.Handoff? && !a.Observe? && !a.Tick? && !a.Send?
  }

  lemma BystanderFrame(c: Config, s: State, a: Action)
    requires Enabled(c, s, a) && Bystander(a)
    ensures var t := Next(c, s, a);
            && t.workers == s.workers && t.taken == s.taken && t.now == s.now
            && t.channel == s.channel && t.sent == s.sent && t.processed == s.processed
  {
  }

  lemma TickKeepsFlowInv(c: Config, s: State, elapsed: nat)
    requires FlowInv(c, s)
    ensures FlowInv(c, Next(c, s, Tick(elapsed)))
  {
    var t := Next(c, s, Tick(elapsed));
    assert t == s.(now := t.now, order := t.order);
    TickKeepsWorkersInv(c.settings, s.workers, s.now, t.now);
  }

  lemma BystanderKeepsFlowInv(c: Config, s: State, a: Action)
    requires FlowInv(c, s) && Enabled(c, s, a) && Bystander(a)
    ensures FlowInv(c, Next(c, s, a))
  {
    BystanderFrame(c, s, a);
  }

  lemma StepKeepsFlowInv(c: Config, s: State, a: Action)
    requires FlowInv(c, s) && Enabled(c, s, a)
    ensures FlowInv(c, Next(c, s, a))
  {
    hide FlowInv, Enabled, Effect, Next;
    match a
    case Work(w, step) => WorkKeepsFlowInv(c, s, w, step);
    case Receive(w) => ReceiveKeepsFlowInv(c, s, w);
    case Handoff(i, w) => HandoffKeepsFlowInv(c, s, i, w);
    case Observe(w) => ObserveKeepsFlowInv(c, s, w);
    case Tick(elapsed) => TickKeepsFlowInv(c, s, elapsed);
    case Send(i) => SendKeepsFlowInv(c, s, i);
    case _ => BystanderKeepsFlowInv(c, s, a);
  }

  /** A worker step never enters `Closing`, and starts to leave only from there. */
  lemma StepLeaving(g: Settings, w: Worker, step: Step, now: nat)
    requires WorkerInv(g, w, now) && CanStep(g, w, step, now)
    ensures Leaving(DoStep(g, w, step, now).pc) <==> Leaving(w.pc)
    ensures w.pc.Exited? ==> DoStep(g, w, step, now).pc.Exited?
  {
  }

  lemma WorkKeepsShutdownInv(c: Config, s: State, w: nat, step: Step)
    requires ShutdownInv(s) && Enabled(c, s, Work(w, step))
    requires WorkerInv(c.settings, s.workers[w], s.now)
    ensures ShutdownInv(Next(c, s, Work(w, step)))
  {
    StepLeaving(c.settings, s.workers[w], step, s.now);
    hide WorkerInv, DoStep, CanStep;
  }

  lemma OthersKeepShutdownInv(c: Config, s: State, a: Action)
    requires ShutdownInv(s) && Enabled(c, s, a) && !a.Work?
    ensures ShutdownInv(Next(c, s, a))
  {
  }

  lemma StepKeepsShutdownInv(c: Config, s: State, a: Action)
    requires FlowInv(c, s) && ShutdownInv(s) && Enabled(c, s, a)
    ensures ShutdownInv(Next(c, s, a))
  {
    if a.Work? {
      WorkKeepsShutdownInv(c, s, a.worker, a.step);
    } else {
      OthersKeepShutdownInv(c, s, a);
    }
  }

  lemma {:induction false} RunKeepsFlow(c: Config, run: seq<Action>)
    requires RunFrom(c, Init(c), run).Some?
    ensures var s := RunFrom(c, Init(c), run).value; FlowInv(c, s) && ShutdownInv(s)
  {
    if run == [] {
      InitFlowInv(c);
    } else {
      var front := run[..|run| - 1];
      RunKeepsFlow(c, front);
      var t := RunFrom(c, Init(c), front).value;
      StepKeepsFlowInv(c, t, run[|run| - 1]);
      StepKeepsShutdownInv(c, t, run[|run| - 1]);
    }
  }

  lemma ReachableFlow(c: Config, s: State)
    requires Reachable(c, s)
    ensures FlowInv(c, s) && ShutdownInv(s)
  {
    var run :| RunFrom(c, Init(c), run) == Some(s);
    RunKeepsFlow(c, run);
  }

  lemma ReachableWorker(c: Config, s: State, w: nat)
    requires Reachable(c, s) && w < |s.workers|
    ensures |s.workers| == c.workers && WorkerInv(c.settings, s.workers[w], s.now)
  {
    ReachableFlow(c, s);
    hide Reachable, WorkerInv, StreamInv, ShutdownInv, Sum;
  }
}
