/** Backpressure delays an event and does not lose it: which calls of an open pipeline can still
    have their event sent. */
module Backpressure {
  import opened Wrappers
  import opened Workers
  import opened Pipeline
  import opened Flow
  import opened CallFates
  import opened TimelyFlush

  // ----- a worker gets back to its select

  /** The step with which a worker that does not leave gets nearer to its select. */
  ghost function Homeward(g: Settings, w: Worker): Step {
    if w.lock.Held? then HolderStep(g, w) else AddEvent
  }

  lemma HomewardPossible(g: Settings, w: Worker, now: nat)
    requires WorkerInv(g, w, now) && !Leaving(w.pc) && !w.pc.Selecting?
    ensures CanStep(g, w, Homeward(g, w), now)
  {
    if w.lock.Held? {
      HolderCanStep(g, w, now);
    }
  }

  /** A worker that does not leave can get back to its select without any other event. */
  lemma ReturnsToSelect(g: Settings, w: Worker, now: nat) returns (steps: seq<Step>)
    requires WorkerInv(g, w, now) && !Leaving(w.pc)
    ensures RunSteps(g, w, steps, now).Some? && RunSteps(g, w, steps, now).value.pc.Selecting?
    ensures |steps| <= Workers.Work(w)
    decreases Workers.Work(w)
  {
    if w.pc.Selecting? {
      steps := [];
    } else {
      HomewardPossible(g, w, now);
      hide WorkerInv, CanStep, DoStep, Homeward, Workers.Work, Leaving;
      var step := Homeward(g, w);
      var v := DoStep(g, w, step, now);
      StepKeepsWorkerInv(g, w, step, now);
      StepLeaving(g, w, step, now);
      StepCostsWork(g, w, step, now);
      var rest := ReturnsToSelect(g, v, now);
      RunStepsPrepend(g, w, step, rest, now);
      steps := [step] + rest;
    }
  }

  // ----- the event can be sent

  predicate CanSendNow(c: Config, s: State, i: nat) {
    Enabled(c, s, Send(i)) || Enabled(c, s, Handoff(i, 0))
  }

  lemma SendMeets(c: Config, s: State, i: nat)
    requires CanSendNow(c, s, i)
    ensures CanMeet(c, s, i, Sent)
  {
    var a := if Enabled(c, s, Send(i)) then Send(i) else Handoff(i, 0);
    RunFromAppend(c, s, [], a);
    assert MetAfter(c, s, [] + [a], i, Sent);
  }

  lemma MeetsLater(c: Config, s: State, run: seq<Action>, t: State, i: nat, fate: Fate)
    requires RunFrom(c, s, run) == Some(t) && CanMeet(c, t, i, fate)
    ensures CanMeet(c, s, i, fate)
  {
    var more :| MetAfter(c, t, more, i, fate);
    RunsCompose(c, s, run, more);
    assert MetAfter(c, s, run + more, i, fate);
  }

  /** A worker at its select makes room in a full channel, or takes the event itself. */
  lemma IdleWorkerSends(c: Config, s: State, i: nat)
    requires AtSend(s, i) && !s.Closed() && |s.channel| <= c.capacity
    requires s.workers != [] && s.workers[0].pc.Selecting?
    ensures CanMeet(c, s, i, Sent)
  {
    if |s.channel| < c.capacity || s.channel == [] {
      SendMeets(c, s, i);
    } else {
      RunFromAppend(c, s, [], Receive(0));
      assert [] + [Receive(0)] == [Receive(0)];
      SendMeets(c, Next(c, s, Receive(0)), i);
      MeetsLater(c, s, [Receive(0)], Next(c, s, Receive(0)), i, Sent);
    }
  }

  lemma WorkerSends(c: Config, s: State, i: nat)
    requires FlowInv(c, s) && ShutdownInv(s) && AtSend(s, i) && !s.Closed() && s.workers != []
    ensures CanMeet(c, s, i, Sent)
  {
    assert WorkerInv(c.settings, s.workers[0], s.now) && !Leaving(s.workers[0].pc);
    hide WorkerInv, ShutdownInv, RunFrom, CanMeet;
    var steps := ReturnsToSelect(c.settings, s.workers[0], s.now);
    LiftSteps(c, s, 0, steps);
    var t := RunFrom(c, s, WorkOf(0, steps)).value;
    IdleWorkerSends(c, t, i);
    MeetsLater(c, s, WorkOf(0, steps), t, i, Sent);
  }

  lemma AtSendCanBeSent(c: Config, s: State, i: nat)
    requires Reachable(c, s) && AtSend(s, i) && !s.Closed()
    requires c.workers > 0 || |s.channel| < c.capacity
    ensures CanMeet(c, s, i, Sent)
  {
    ReachableFlow(c, s);
    if |s.channel| < c.capacity {
      SendMeets(c, s, i);
    } else {
      WorkerSends(c, s, i);
    }
  }

  lemma UndecidedCanBeSent(c: Config, s: State, i: nat)
    requires Reachable(c, s) && i < |s.calls| && Undecided(s.calls[i]) && !s.Closed()
    requires c.workers > 0 || |s.channel| < c.capacity
    ensures CanMeet(c, s, i, Sent)
  {
    if AtSend(s, i) {
      AtSendCanBeSent(c, s, i);
    } else {
      var run, t := GetsToSend(c, s, i);
      hide RunFrom, CanMeet;
      ReachesFurther(c, s, run, t);
      AtSendCanBeSent(c, t, i);
      MeetsLater(c, s, run, t, i, Sent);
    }
  }

  // ----- and otherwise it cannot

  /** Nothing can leave the channel of a pipeline without workers, so a full one stays full. */
  ghost predicate Stuck(c: Config, s: State, i: nat) {
    && s.workers == [] && c.capacity <= |s.channel|
    && i < |s.calls| && !s.calls[i].Accepted()
  }

  lemma StaysStuck(c: Config, s: State, a: Action, i: nat)
    requires Enabled(c, s, a) && Stuck(c, s, i)
    ensures Stuck(c, Next(c, s, a), i)
  {
    if !StepOf(a, i) {
      OtherCallsStay(c, s, a, i);
    }
  }

  /** A call that has been rejected or dropped, or has panicked, is not sent any more. */
  ghost predicate Over(s: State, i: nat) {
    i < |s.calls| && !Undecided(s.calls[i]) && !s.calls[i].Accepted()
  }

  lemma StaysOver(c: Config, s: State, a: Action, i: nat)
    requires Enabled(c, s, a) && Over(s, i)
    ensures Over(Next(c, s, a), i)
  {
    if !StepOf(a, i) {
      OtherCallsStay(c, s, a, i);
    }
  }

  lemma {:induction false} NeverSent(c: Config, s: State, run: seq<Action>, i: nat)
    requires RunFrom(c, s, run).Some? && (Stuck(c, s, i) || Over(s, i))
    ensures var t := RunFrom(c, s, run).value; Stuck(c, t, i) || Over(t, i)
  {
    if run != [] {
      hide Enabled, Next, Stuck, Over;
      var front, a := run[..|run| - 1], run[|run| - 1];
      NeverSent(c, s, front, i);
      var t := RunFrom(c, s, front).value;
      if Stuck(c, t, i) {
        StaysStuck(c, t, a, i);
      } else {
        StaysOver(c, t, a, i);
      }
    }
  }

  /** In an open pipeline a call whose fate is undecided, blocked by a full channel or not, can
      still have its event sent if and only if there is a worker or room in the channel; any
      other call has it sent only if it has been. Together with the fates of the calls of a
      closed pipeline this is what backpressure keeps. */
  lemma CanBeSentExactly(c: Config, s: State, i: nat)
    requires Reachable(c, s) && i < |s.calls| && !s.Closed()
    ensures CanMeet(c, s, i, Sent)
       <==> s.calls[i].Accepted() || (Undecided(s.calls[i]) && (c.workers > 0 || |s.channel| < c.capacity))
  {
    ReachableFlow(c, s);
    if s.calls[i].Accepted() {
      AlreadyMet(c, s, i, Sent);
    } else if Undecided(s.calls[i]) && (c.workers > 0 || |s.channel| < c.capacity) {
      UndecidedCanBeSent(c, s, i);
    } else {
      assert Stuck(c, s, i) || Over(s, i);
      forall run
        ensures !MetAfter(c, s, run, i, Sent)
      {
        if RunFrom(c, s, run).Some? {
          NeverSent(c, s, run, i);
        }
      }
    }
  }

  // ----- a call blocks only when the channel is full

  /** The call found the channel full. */
  predicate FoundFull(call: Call) {
    call.pc.Blocked? || call.pc.Parked? || Met(call, Lost)
  }

  ghost predicate FullInv(c: Config, s: State) {
    forall i :: 0 <= i < |s.calls| && FoundFull(s.calls[i]) ==> c.capacity <= |s.sent|
  }

  lemma SentGrows(c: Config, s: State, a: Action)
    requires Enabled(c, s, a)
    ensures |s.sent| <= |Next(c, s, a).sent|
    ensures forall i :: |s.calls| <= i < |Next(c, s, a).calls| ==> !FoundFull(Next(c, s, a).calls[i])
  {
  }

  lemma OwnStepFull(c: Config, s: State, a: Action, i: nat)
    requires Enabled(c, s, a) && StepOf(a, i) && i < |s.calls| && |s.channel| <= |s.sent|
    requires FoundFull(s.calls[i]) ==> c.capacity <= |s.sent|
    ensures i < |Next(c, s, a).calls|
    ensures FoundFull(Next(c, s, a).calls[i]) ==> c.capacity <= |Next(c, s, a).sent|
  {
  }

  lemma StepKeepsFull(c: Config, s: State, a: Action)
    requires Enabled(c, s, a) && FullInv(c, s) && |s.channel| <= |s.sent|
    ensures FullInv(c, Next(c, s, a))
  {
    var t := Next(c, s, a);
    SentGrows(c, s, a);
    hide Enabled, Next, FoundFull;
    forall i | 0 <= i < |t.calls| && FoundFull(t.calls[i])
      ensures c.capacity <= |t.sent|
    {
      if i < |s.calls| && StepOf(a, i) {
        OwnStepFull(c, s, a, i);
      } else if i < |s.calls| {
        OtherCallsStay(c, s, a, i);
      }
    }
  }

  lemma {:induction false} RunKeepsFull(c: Config, run: seq<Action>)
    requires RunFrom(c, Init(c), run).Some?
    ensures FullInv(c, RunFrom(c, Init(c), run).value)
  {
    if run != [] {
      hide Enabled, Next, FoundFull, FlowInv;
      var front := run[..|run| - 1];
      RunKeepsFull(c, front);
      var t := RunFrom(c, Init(c), front).value;
      assert Reachable(c, t);
      UnprocessedIsInPlace(c, t);
      StepKeepsFull(c, t, run[|run| - 1]);
    }
  }

  lemma UnprocessedIsInPlace(c: Config, s: State)
    requires Reachable(c, s)
    ensures |s.channel| <= |s.sent|
  {
    ReachableFlow(c, s);
  }

  /** As long as fewer events have been sent than the channel holds, no call has found it full: none
      is blocked, waits or has been dropped. */
  lemma NoBlockBelowCapacity(c: Config, s: State, i: nat)
    requires Reachable(c, s) && i < |s.calls| && |s.sent| < c.capacity
    ensures !s.calls[i].pc.Blocked? && !s.calls[i].pc.Parked? && !Met(s.calls[i], Lost)
  {
    var run :| RunFrom(c, Init(c), run) == Some(s);
    RunKeepsFull(c, run);
    assert FullInv(c, s);
  }
}
