/** The whole ingestion pipeline as a transition system. Any number of `Submit` calls check,
    mark and send into a bounded channel; workers move events into their batchers;
    `Shutdown` closes the channel and waits, or gives up and cancels. An action is one
    atomic step of one goroutine; a run is any interleaving of possible actions. */
module Pipeline {
  import opened Wrappers
  import opened Events
  import opened Workers
  import TtlCache

  /** No deduplicator, the in-memory one, or one that may answer or fail in any way. */
  datatype Dedup = NoDedup | Memory(ttl: nat) | External

  datatype Config = Config(workers: nat, capacity: nat, settings: Settings, dedup: Dedup)

  datatype Answer = Known | New | Failed

  datatype Outcome = Received | Duplicate | Dropped

  /** Where a `Submit` call is. `Blocked` has found the channel full and enters the second
      select; `Parked` waits in it, and panics when the channel is closed. `Counting` lies
      between the decisive step of a call and the counter it increments. `Panicked` is a
      send on the closed channel. */
  datatype CallPc =
    | Checking | Marking | Trying | Blocked | Parked
    | Counting(outcome: Outcome) | Done(outcome: Outcome) | Panicked

  /** A point of a run: the number of actions before it, and the clock. */
  datatype Instant = Instant(order: nat, time: nat)

  /** A `Submit` call, with the history of when it did what. */
  datatype Call = Call(
    event: Event, key: string, pc: CallPc, started: nat,
    checked: Option<Instant>, marked: Option<Instant>, ended: Option<nat>)
  {
    predicate Finished() {
      pc.Done? || pc.Panicked?
    }

    /** The call got past deduplication. */
    predicate ReachedSend() {
      pc.Trying? || pc.Blocked? || pc.Parked? || pc.Panicked?
      || pc == Counting(Received) || pc == Done(Received) || pc == Counting(Dropped) || pc == Done(Dropped)
    }

    predicate Rejected() {
      pc == Counting(Duplicate) || pc == Done(Duplicate)
    }

    predicate Accepted() {
      pc == Counting(Received) || pc == Done(Received)
    }
  }

  datatype Shutdown = NotCalled | Waiting | ReturnedNil | ReturnedError

  /** One receive: which worker took which event. */
  datatype Take = Take(worker: nat, event: Event)

  /** `sent`, `taken` and `overlapped` are history: the events in the order they were sent,
      the receives in their order, and whether some `Submit` overlapped `Shutdown`. */
  datatype State = State(
    now: nat, order: nat, shutdown: Shutdown, channel: seq<Event>, workers: seq<Worker>,
    calls: seq<Call>, cache: TtlCache.Cache,
    received: nat, duplicated: nat, dropped: nat, processed: nat,
    sent: seq<Event>, taken: seq<Take>, overlapped: bool)
  {
    /** `Shutdown` closes the channel first thing. */
    predicate Closed() {
      !shutdown.NotCalled?
    }

    /** The context is cancelled only on the timeout path. */
    predicate Cancelled() {
      shutdown.ReturnedError?
    }

    predicate AllExited() {
      forall w :: 0 <= w < |workers| ==> workers[w].pc.Exited?
    }

    predicate AllCallsFinished() {
      forall i :: 0 <= i < |calls| ==> calls[i].Finished()
    }
  }

  datatype Action =
    | Start(event: Event)                 // a Submit call begins
    | Check(call: nat, answer: Answer)    // IsDuplicate
    | Mark(call: nat, ok: bool)           // Mark
    | Send(call: nat)                     // a send into free buffer space
    | Handoff(call: nat, worker: nat)     // a send straight to a receiving worker
    | FindFull(call: nat)                 // the first select takes its default branch
    | Park(call: nat)                     // the second select has to wait
    | Drop(call: nat)                     // the second select sees the cancelled context
    | Panic(call: nat)                    // a send on the closed channel
    | Count(call: nat)                    // the counter of the call's outcome
    | Sweep                               // the deduplicator's cleanup tick
    | Tick(elapsed: nat)                  // time passes
    | Receive(worker: nat)                // a worker receives from the channel
    | Observe(worker: nat)                // a worker sees the closed channel or the cancelled context
    | Work(worker: nat, step: Step)       // a step of a worker, its flush or its timers
    | Close                               // Shutdown begins
    | ReturnNil                           // Shutdown: all workers are done
    | TimeOut                             // Shutdown: the timeout expired

  function Init(c: Config): State {
    State(0, 0, NotCalled, [], seq(c.workers, _ => InitialWorker(c.settings)), [], map[],
          0, 0, 0, 0, [], [], false)
  }

  predicate AtSend(s: State, i: nat) {
    i < |s.calls| && (s.calls[i].pc.Trying? || s.calls[i].pc.Blocked? || s.calls[i].pc.Parked?)
  }

  predicate Enabled(c: Config, s: State, a: Action) {
    match a
    case Start(_) => true
    case Check(i, answer) =>
      && i < |s.calls| && s.calls[i].pc.Checking?
      && (c.dedup.Memory? ==> answer == if s.calls[i].key in s.cache then Known else New)
    case Mark(i, ok) => i < |s.calls| && s.calls[i].pc.Marking? && (c.dedup.Memory? ==> ok)
    case Send(i) => AtSend(s, i) && !s.Closed() && |s.channel| < c.capacity
    case Handoff(i, w) =>
      && AtSend(s, i) && !s.Closed() && s.channel == []
      && w < |s.workers| && s.workers[w].pc.Selecting?
    case FindFull(i) =>
      i < |s.calls| && s.calls[i].pc.Trying? && !s.Closed() && |s.channel| >= c.capacity
    case Park(i) =>
      i < |s.calls| && s.calls[i].pc.Blocked? && !s.Closed() && |s.channel| >= c.capacity
    case Drop(i) => i < |s.calls| && s.calls[i].pc.Blocked? && s.Cancelled()
    case Panic(i) => AtSend(s, i) && s.Closed()
    case Count(i) => i < |s.calls| && s.calls[i].pc.Counting?
    case Sweep => c.dedup.Memory?
    case Tick(_) => true
    case Receive(w) => w < |s.workers| && s.workers[w].pc.Selecting? && s.channel != []
    case Observe(w) =>
      && w < |s.workers| && s.workers[w].pc.Selecting?
      && ((s.Closed() && s.channel == []) || s.Cancelled())
    case Work(w, step) => w < |s.workers| && CanStep(c.settings, s.workers[w], step, s.now)
    case Close => s.shutdown.NotCalled?
    case ReturnNil => s.shutdown.Waiting? && s.AllExited()
    case TimeOut => s.shutdown.Waiting?
  }

  function SetCall(s: State, i: nat, call: Call): State
    requires i < |s.calls|
  {
    s.(calls := s.calls[i := call])
  }

  function SetPc(s: State, i: nat, pc: CallPc): State
    requires i < |s.calls|
  {
    SetCall(s, i, s.calls[i].(pc := pc))
  }

  /** The effect of an action, up to the action counter. */
  function Effect(c: Config, s: State, a: Action): State
    requires Enabled(c, s, a)
  {
    match a
    case Start(e) =>
      var pc := if c.dedup.NoDedup? then Trying else Checking;
      s.(calls := s.calls + [Call(e, e.DeduplicationKey(), pc, s.order, None, None, None)],
         overlapped := s.overlapped || s.Closed())
    case Check(i, answer) =>
      SetCall(s, i, s.calls[i].(checked := Some(Instant(s.order, s.now)),
                                pc := if answer.Known? then Counting(Duplicate) else Marking))
    case Mark(i, ok) =>
      var t := SetCall(s, i, s.calls[i].(marked := if ok then Some(Instant(s.order, s.now)) else None,
                                         pc := Trying));
      if c.dedup.Memory? then t.(cache := TtlCache.MarkAt(s.cache, s.calls[i].key, s.now)) else t
    case Send(i) =>
      var e := s.calls[i].event;
      SetPc(s, i, Counting(Received)).(channel := s.channel + [e], sent := s.sent + [e])
    case Handoff(i, w) =>
      var e := s.calls[i].event;
      SetPc(s, i, Counting(Received)).(
        workers := s.workers[w := s.workers[w].(pc := Holding(e))],
        sent := s.sent + [e], taken := s.taken + [Take(w, e)])
    case FindFull(i) => SetPc(s, i, Blocked)
    case Park(i) => SetPc(s, i, Parked)
    case Drop(i) => SetPc(s, i, Counting(Dropped))
    case Panic(i) => SetCall(s, i, s.calls[i].(pc := Panicked, ended := Some(s.order)))
    case Count(i) =>
      var outcome := s.calls[i].pc.outcome;
      var t := SetCall(s, i, s.calls[i].(pc := Done(outcome), ended := Some(s.order)));
      (match outcome
       case Received => t.(received := s.received + 1)
       case Duplicate => t.(duplicated := s.duplicated + 1)
       case Dropped => t.(dropped := s.dropped + 1))
    case Sweep => s.(cache := TtlCache.Swept(s.cache, c.dedup.ttl, s.now))
    case Tick(elapsed) => s.(now := s.now + elapsed)
    case Receive(w) =>
      var e := s.channel[0];
      s.(channel := s.channel[1..],
         workers := s.workers[w := s.workers[w].(pc := Holding(e))],
         taken := s.taken + [Take(w, e)])
    case Observe(w) => s.(workers := s.workers[w := s.workers[w].(pc := Closing)])
    case Work(w, step) =>
      s.(workers := s.workers[w := DoStep(c.settings, s.workers[w], step, s.now)],
         processed := s.processed + if step.FinishFlush? then |s.workers[w].flight.batch| else 0)
    case Close =>
      s.(shutdown := Waiting, overlapped := s.overlapped || !s.AllCallsFinished())
    case ReturnNil => s.(shutdown := ReturnedNil)
    case TimeOut => s.(shutdown := ReturnedError)
  }

  function Next(c: Config, s: State, a: Action): State
    requires Enabled(c, s, a)
  {
    Effect(c, s, a).(order := s.order + 1)
  }

  /** The state at the end of a run from `s`, if every action was possible in its turn. */
  function RunFrom(c: Config, s: State, run: seq<Action>): Option<State> {
    if run == [] then Some(s)
    else
      match RunFrom(c, s, run[..|run| - 1])
      case None => None
      case Some(t) =>
        var a := run[|run| - 1];
        if Enabled(c, t, a) then Some(Next(c, t, a)) else None
  }

  /** `s` is the state after some run of the pipeline. */
  ghost predicate Reachable(c: Config, s: State) {
    exists run :: RunFrom(c, Init(c), run) == Some(s)
  }

  lemma RunFromAppend(c: Config, s: State, run: seq<Action>, a: Action)
    requires RunFrom(c, s, run).Some? && Enabled(c, RunFrom(c, s, run).value, a)
    ensures RunFrom(c, s, run + [a]) == Some(Next(c, RunFrom(c, s, run).value, a))
  {
    assert (run + [a])[..|run|] == run;
  }

  lemma {:induction false} RunFromPrepend(c: Config, s: State, a: Action, run: seq<Action>)
    requires Enabled(c, s, a)
    ensures RunFrom(c, s, [a] + run) == RunFrom(c, Next(c, s, a), run)
  {
    hide Enabled, Next;
    if run == [] {
      assert [a] + run == [a] && [a][..0] == [];
      assert RunFrom(c, s, [a][..0]) == Some(s);
    } else {
      var front := run[..|run| - 1];
      RunFromPrepend(c, s, a, front);
      assert ([a] + run)[..|run|] == [a] + front;
    }
  }

  lemma {:induction false} RunsCompose(c: Config, s: State, run: seq<Action>, more: seq<Action>)
    requires RunFrom(c, s, run).Some?
    ensures RunFrom(c, s, run + more) == RunFrom(c, RunFrom(c, s, run).value, more)
  {
    hide Enabled, Next;
    if more == [] {
      assert run + more == run;
    } else {
      RunsCompose(c, s, run, more[..|more| - 1]);
      assert (run + more)[..|run + more| - 1] == run + more[..|more| - 1];
    }
  }

  /** The actions of one call. */
  predicate StepOf(a: Action, i: nat) {
    match a
    case Check(j, _) => i == j
    case Mark(j, _) => i == j
    case Send(j) => i == j
    case Handoff(j, _) => i == j
    case FindFull(j) => i == j
    case Park(j) => i == j
    case Drop(j) => i == j
    case Panic(j) => i == j
    case Count(j) => i == j
    case _ => false
  }

  lemma OtherCallsStay(c: Config, s: State, a: Action, i: nat)
    requires Enabled(c, s, a) && i < |s.calls| && !StepOf(a, i)
    ensures i < |Next(c, s, a).calls| && Next(c, s, a).calls[i] == s.calls[i]
  {
  }

  lemma {:induction false} PrefixRuns(c: Config, s: State, run: seq<Action>, n: nat)
    requires RunFrom(c, s, run).Some? && n <= |run|
    ensures RunFrom(c, s, run[..n]).Some?
  {
    if n < |run| {
      hide Enabled, Next;
      PrefixRuns(c, s, run[..|run| - 1], n);
      assert run[..|run| - 1][..n] == run[..n];
    } else {
      assert run[..n] == run;
    }
  }

  lemma ReachesFurther(c: Config, s: State, run: seq<Action>, t: State)
    requires Reachable(c, s) && RunFrom(c, s, run) == Some(t)
    ensures Reachable(c, t)
  {
    var before :| RunFrom(c, Init(c), before) == Some(s);
    RunsCompose(c, Init(c), before, run);
  }
}
