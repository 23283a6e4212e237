/** The counters of `Submit`: what they count at every reachable state, and what a
    shutdown that overlaps no `Submit` call guarantees from end to end. */
module Accounting {
  import opened Wrappers
  import opened Sequences
  import opened Events
  import opened Workers
  import opened Pipeline
  import opened Delivery
  import CallFates
  import EarlyFlush
  import Flow
  import TimelyFlush

  /** How many calls are at `pc`. */
  function Tally(calls: seq<Call>, pc: CallPc): nat {
    if calls == [] then 0
    else Tally(calls[..|calls| - 1], pc) + if calls[|calls| - 1].pc == pc then 1 else 0
  }

  /** How many calls had their event `e` sent. */
  function AcceptedTimes(calls: seq<Call>, e: Event): nat {
    if calls == [] then 0
    else AcceptedTimes(calls[..|calls| - 1], e) + Accepts(calls[|calls| - 1], e)
  }

  function Accepts(call: Call, e: Event): nat {
    if call.Accepted() && call.event == e then 1 else 0
  }

  lemma TallyAppend(calls: seq<Call>, call: Call, pc: CallPc)
    ensures Tally(calls + [call], pc) == Tally(calls, pc) + if call.pc == pc then 1 else 0
  {
    assert (calls + [call])[..|calls|] == calls;
  }

  lemma AcceptedAppend(calls: seq<Call>, call: Call, e: Event)
    ensures AcceptedTimes(calls + [call], e) == AcceptedTimes(calls, e) + Accepts(call, e)
  {
    assert (calls + [call])[..|calls|] == calls;
  }

  lemma {:induction false} TallyUpdate(calls: seq<Call>, i: nat, call: Call, pc: CallPc)
    requires i < |calls|
    ensures Tally(calls[i := call], pc) + (if calls[i].pc == pc then 1 else 0)
         == Tally(calls, pc) + if call.pc == pc then 1 else 0
  {
    var n := |calls| - 1;
    if i == n {
      assert calls[i := call][..n] == calls[..n];
    } else {
      assert calls[i := call][..n] == calls[..n][i := call];
      TallyUpdate(calls[..n], i, call, pc);
    }
  }

  lemma {:induction false} AcceptedUpdate(calls: seq<Call>, i: nat, call: Call, e: Event)
    requires i < |calls|
    ensures AcceptedTimes(calls[i := call], e) + Accepts(calls[i], e)
         == AcceptedTimes(calls, e) + Accepts(call, e)
  {
    var n := |calls| - 1;
    if i == n {
      assert calls[i := call][..n] == calls[..n];
    } else {
      assert calls[i := call][..n] == calls[..n][i := call];
      AcceptedUpdate(calls[..n], i, call, e);
    }
  }

  lemma {:induction false} TallyZero(calls: seq<Call>, pc: CallPc)
    requires forall i :: 0 <= i < |calls| ==> calls[i].pc != pc
    ensures Tally(calls, pc) == 0
  {
    if calls != [] {
      TallyZero(calls[..|calls| - 1], pc);
    }
  }

  lemma {:induction false} TallyPositive(calls: seq<Call>, i: nat)
    requires i < |calls|
    ensures Tally(calls, calls[i].pc) >= 1
  {
    var n := |calls| - 1;
    if i < n {
      TallyPositive(calls[..n], i);
    }
  }

  /** Each counter counts the calls that finished with its outcome. */
  ghost predicate CountersInv(calls: seq<Call>, received: nat, duplicated: nat, dropped: nat) {
    && received == Tally(calls, Done(Received))
    && duplicated == Tally(calls, Done(Duplicate))
    && dropped == Tally(calls, Done(Dropped))
  }

  /** The sent events are the events of the accepted calls; the calls that have sent are
      counted or about to be. */
  ghost predicate SentInv(calls: seq<Call>, sent: seq<Event>) {
    && |sent| == Tally(calls, Counting(Received)) + Tally(calls, Done(Received))
    && forall e :: Occurrences(sent, e) == AcceptedTimes(calls, e)
  }

  /** A call is lost to a shutdown only if the shutdown overlapped some call. */
  ghost predicate OverlapInv(s: State) {
    !s.overlapped ==>
      && (s.Closed() ==> s.AllCallsFinished())
      && (forall i :: 0 <= i < |s.calls| ==>
            s.calls[i].pc !in {Counting(Dropped), Done(Dropped), Panicked})
  }

  ghost predicate AccountingInv(s: State) {
    && CountersInv(s.calls, s.received, s.duplicated, s.dropped)
    && SentInv(s.calls, s.sent)
    && OverlapInv(s)
  }

  lemma StartKeepsAccounting(c: Config, s: State, e: Event)
    requires AccountingInv(s)
    ensures AccountingInv(Next(c, s, Start(e)))
  {
    var t := Next(c, s, Start(e));
    var call := t.calls[|s.calls|];
    TallyAppend(s.calls, call, Done(Received));
    TallyAppend(s.calls, call, Done(Duplicate));
    TallyAppend(s.calls, call, Done(Dropped));
    TallyAppend(s.calls, call, Counting(Received));
    forall f ensures AcceptedTimes(t.calls, f) == AcceptedTimes(s.calls, f) {
      AcceptedAppend(s.calls, call, f);
    }
  }

  /** What replacing call `i` does to the tallies the invariant speaks about. */
  lemma ReplaceCall(calls: seq<Call>, i: nat, call: Call, sent: seq<Event>,
                    received: nat, duplicated: nat, dropped: nat)
    requires CountersInv(calls, received, duplicated, dropped) && SentInv(calls, sent)
    requires i < |calls| && call.event == calls[i].event && !calls[i].pc.Done?
    ensures CountersInv(calls[i := call],
                        received + (if call.pc == Done(Received) then 1 else 0),
                        duplicated + (if call.pc == Done(Duplicate) then 1 else 0),
                        dropped + (if call.pc == Done(Dropped) then 1 else 0))
    ensures call.Accepted() == calls[i].Accepted() ==> SentInv(calls[i := call], sent)
    ensures call.Accepted() && !calls[i].Accepted() ==> SentInv(calls[i := call], sent + [call.event])
  {
    TallyUpdate(calls, i, call, Done(Received));
    TallyUpdate(calls, i, call, Done(Duplicate));
    TallyUpdate(calls, i, call, Done(Dropped));
    TallyUpdate(calls, i, call, Counting(Received));
    forall e
      ensures AcceptedTimes(calls[i := call], e) + Accepts(calls[i], e) == AcceptedTimes(calls, e) + Accepts(call, e)
      ensures Occurrences(sent + [call.event], e) == Occurrences(sent, e) + if call.event == e then 1 else 0
    {
      AcceptedUpdate(calls, i, call, e);
      OccurrencesAppend(sent, call.event, e);
    }
  }

  /** The actions of a `Submit` call after its start. */
  predicate OfCall(a: Action) {
    a.Check? || a.Mark? || a.Send? || a.Handoff? || a.FindFull? || a.Park? || a.Drop?
    || a.Panic? || a.Count?
  }

  lemma OfCallPlaces(c: Config, s: State, a: Action)
    requires Enabled(c, s, a) && OfCall(a)
    ensures var t, i := Next(c, s, a), a.call;
            && i < |s.calls| == |t.calls|
            && t.calls == s.calls[i := t.calls[i]]
            && t.calls[i].event == s.calls[i].event
            && t.calls[i].key == s.calls[i].key
            && t.shutdown == s.shutdown && t.overlapped == s.overlapped
  {
  }

  /** Such an action replaces its own call, and counts or sends what the new state says. */
  lemma OfCallFrame(c: Config, s: State, a: Action)
    requires Enabled(c, s, a) && OfCall(a)
    ensures var t, i := Next(c, s, a), a.call;
            && i < |s.calls| == |t.calls|
            && t.calls == s.calls[i := t.calls[i]]
            && t.calls[i].event == s.calls[i].event
            && t.calls[i].key == s.calls[i].key
            && !s.calls[i].Finished()
            && t.received == s.received + (if t.calls[i].pc == Done(Received) then 1 else 0)
            && t.duplicated == s.duplicated + (if t.calls[i].pc == Done(Duplicate) then 1 else 0)
            && t.dropped == s.dropped + (if t.calls[i].pc == Done(Dropped) then 1 else 0)
            && t.sent == (if a.Send? || a.Handoff? then s.sent + [s.calls[i].event] else s.sent)
            && (a.Send? || a.Handoff? ==> t.calls[i].Accepted() && !s.calls[i].Accepted())
            && (!a.Send? && !a.Handoff? ==> t.calls[i].Accepted() == s.calls[i].Accepted())
            && t.shutdown == s.shutdown && t.overlapped == s.overlapped
  {
    OfCallPlaces(c, s, a);
  }

  lemma CallKeepsCounters(c: Config, s: State, a: Action)
    requires AccountingInv(s) && Enabled(c, s, a) && OfCall(a)
    ensures var t := Next(c, s, a);
            CountersInv(t.calls, t.received, t.duplicated, t.dropped) && SentInv(t.calls, t.sent)
  {
    OfCallFrame(c, s, a);
    var t := Next(c, s, a);
    ReplaceCall(s.calls, a.call, t.calls[a.call], s.sent, s.received, s.duplicated, s.dropped);
    hide CountersInv, SentInv, Next, Enabled;
  }

  lemma CallKeepsOverlapInv(c: Config, s: State, a: Action)
    requires OverlapInv(s) && Enabled(c, s, a) && OfCall(a)
    ensures OverlapInv(Next(c, s, a))
  {
  }

  lemma OthersKeepAccounting(c: Config, s: State, a: Action)
    requires AccountingInv(s) && Enabled(c, s, a) && !OfCall(a) && !a.Start?
    ensures AccountingInv(Next(c, s, a))
  {
    hide CountersInv, SentInv;
  }

  lemma StepKeepsAccounting(c: Config, s: State, a: Action)
    requires AccountingInv(s) && Enabled(c, s, a)
    ensures AccountingInv(Next(c, s, a))
  {
    if OfCall(a) {
      CallKeepsCounters(c, s, a);
      CallKeepsOverlapInv(c, s, a);
    } else if a.Start? {
      StartKeepsAccounting(c, s, a.event);
    } else {
      OthersKeepAccounting(c, s, a);
    }
  }

  lemma {:induction false} RunKeepsAccounting(c: Config, run: seq<Action>)
    requires RunFrom(c, Init(c), run).Some?
    ensures AccountingInv(RunFrom(c, Init(c), run).value)
  {
    if run != [] {
      hide AccountingInv;
      var front := run[..|run| - 1];
      RunKeepsAccounting(c, front);
      StepKeepsAccounting(c, RunFrom(c, Init(c), front).value, run[|run| - 1]);
    }
  }

  lemma ReachableAccounting(c: Config, s: State)
    requires Reachable(c, s)
    ensures AccountingInv(s)
  {
    var run :| RunFrom(c, Init(c), run) == Some(s);
    RunKeepsAccounting(c, run);
  }

  // ----- what the counters mean

  lemma {:induction false} FinishedCallsSplit(calls: seq<Call>)
    requires forall i :: 0 <= i < |calls| ==> calls[i].Finished()
    ensures |calls| == Tally(calls, Done(Received)) + Tally(calls, Done(Duplicate))
                       + Tally(calls, Done(Dropped)) + Tally(calls, Panicked)
  {
    if calls != [] {
      FinishedCallsSplit(calls[..|calls| - 1]);
      var last := calls[|calls| - 1];
      if last.pc.Done? {
        match last.pc.outcome
        case Received =>
        case Duplicate =>
        case Dropped =>
      }
    }
  }

  /** When no `Submit` is running, the counters account for every call, except those
      that panicked on the closed channel. */
  lemma CountersAccountForCalls(c: Config, s: State)
    requires Reachable(c, s) && s.AllCallsFinished()
    ensures s.received + s.duplicated + s.dropped + Tally(s.calls, Panicked) == |s.calls|
    ensures s.received == |s.sent|
  {
    ReachableAccounting(c, s);
    FinishedCallsSplit(s.calls);
    TallyZero(s.calls, Counting(Received));
  }

  /** `received` lags behind the sends by exactly the calls between their send and their
      counter; `processed` is ahead of it exactly when there are more such calls than events
      in the channel and with the workers. */
  lemma ReceivedLag(c: Config, s: State)
    requires Reachable(c, s)
    ensures |s.sent| == s.received + Tally(s.calls, Counting(Received))
    ensures s.received < s.processed
       <==> |s.channel| + Sum(s.workers, Backlog) < Tally(s.calls, Counting(Received))
  {
    ReachableAccounting(c, s);
    Flow.ReachableFlow(c, s);
    SentAddsUp(c, s);
  }

  /** If no `Submit` overlapped `Shutdown`, none was dropped and none panicked. */
  lemma NoOverlapNoLoss(c: Config, s: State)
    requires Reachable(c, s) && !s.overlapped
    ensures s.dropped == 0 && Tally(s.calls, Panicked) == 0
    ensures s.Closed() ==> s.received + s.duplicated == |s.calls|
  {
    ReachableAccounting(c, s);
    TallyZero(s.calls, Done(Dropped));
    TallyZero(s.calls, Panicked);
    if s.Closed() {
      CountersAccountForCalls(c, s);
    }
  }

  lemma {:induction false} FilteredOccurrences(xs: seq<Event>, keep: Event -> bool, e: Event)
    ensures Occurrences(Filter(xs, keep), e) == if keep(e) then Occurrences(xs, e) else 0
  {
    if xs != [] {
      FilteredOccurrences(xs[..|xs| - 1], keep, e);
      Delivery.AcceptedAppend(xs[..|xs| - 1], xs[|xs| - 1], keep, e);
      assert xs == xs[..|xs| - 1] + [xs[|xs| - 1]];
    }
  }

  /** End to end: after a graceful shutdown with at least one worker, each plugin was handed
      each event it accepts as often as `Submit` calls had it sent, and nothing else. */
  lemma GracefulShutdownDelivers(c: Config, s: State, p: nat, e: Event)
    requires Reachable(c, s) && s.shutdown.ReturnedNil? && c.workers > 0
    requires p < |c.settings.filters|
    ensures HandedTimes(s.workers, p, e) == if c.settings.filters[p](e) then AcceptedTimes(s.calls, e) else 0
  {
    GracefulShutdownDrains(c, s);
    ReachableAccounting(c, s);
    FilteredOccurrences(s.sent, c.settings.filters[p], e);
    assert HandedExactly(c, s, p, s.sent);
  }

  /** After a graceful shutdown the two totals agree exactly when no call is still on its
      way to its counter, which is so when no `Submit` overlapped the shutdown. */
  lemma GracefulTotalsAgree(c: Config, s: State)
    requires Reachable(c, s) && s.shutdown.ReturnedNil? && c.workers > 0
    ensures s.processed == s.received
       <==> forall i :: 0 <= i < |s.calls| ==> s.calls[i].pc != Counting(Received)
    ensures !s.overlapped ==> s.processed == s.received && s.received + s.duplicated == |s.calls|
  {
    hide HandedExactly, AllReturned, Reachable, Backlog, Occurrences;
    GracefulShutdownDrains(c, s);
    ReceivedLag(c, s);
    if forall i :: 0 <= i < |s.calls| ==> s.calls[i].pc != Counting(Received) {
      TallyZero(s.calls, Counting(Received));
    } else {
      var i :| 0 <= i < |s.calls| && s.calls[i].pc == Counting(Received);
      TallyPositive(s.calls, i);
    }
    if !s.overlapped {
      NoOverlapNoLoss(c, s);
      ReachableAccounting(c, s);
    }
  }

  /** A call starts, and `Shutdown` begins before it sends. */
  lemma StartAndClose(c: Config, e: Event) returns (run: seq<Action>, s: State)
    ensures RunFrom(c, Init(c), run) == Some(s)
    ensures s.Closed() && |s.calls| == 1 && CallFates.Undecided(s.calls[0])
  {
    run, s := [], Init(c);
    RunFromAppend(c, Init(c), run, Start(e));
    run, s := run + [Start(e)], Next(c, s, Start(e));
    RunFromAppend(c, Init(c), run, Close);
    run, s := run + [Close], Next(c, s, Close);
  }

  /** The assumption that no `Submit` overlaps `Shutdown` is needed: in every configuration an
      overlapping one can panic on the closed channel. */
  lemma OverlapCanPanic(c: Config, e: Event)
    ensures exists s: State :: Reachable(c, s) && s.overlapped && Tally(s.calls, Panicked) >= 1
  {
    var run, s := StartAndClose(c, e);
    CallFates.CanPanic(c, s, 0);
    var more :| CallFates.MetAfter(c, s, more, 0, CallFates.Crashed);
    RunsCompose(c, Init(c), run, more);
    var t := RunFrom(c, s, more).value;
    assert Reachable(c, t);
    ReachableAccounting(c, t);
    TallyPositive(t.calls, 0);
  }

  // ----- the counters are not totally ordered

  lemma {:induction false} SumAtLeast(workers: seq<Worker>, w: nat)
    requires w < |workers|
    ensures Completed(workers[w]) <= Sum(workers, Completed)
  {
    if w < |workers| - 1 {
      SumAtLeast(workers[..|workers| - 1], w);
    }
  }

  /** The first call has sent, and its event is pending at a worker or flushed already. */
  lemma FirstEventAdded(c: Config, e: Event) returns (run: seq<Action>, s: State)
    requires c.workers > 0
    ensures RunFrom(c, Init(c), run) == Some(s)
    ensures |s.calls| == 1 && s.calls[0].pc == Counting(Received) && s.workers != []
    ensures s.workers[0].buffer.pending == [] ==> |s.workers[0].flushed| == 1 && s.workers[0].flushed[0] != []
  {
    run, s := EarlyFlush.PrepareCalls(c, e, 1);
    hide RunFrom;
    run, s := EarlyFlush.Feed(c, run, s, 0);
  }

  lemma PendingGone(c: Config, run: seq<Action>, s: State) returns (t: State)
    requires RunFrom(c, Init(c), run) == Some(s) && s.workers != [] && s.workers[0].buffer.pending != []
    ensures Reachable(c, t) && t.calls == s.calls
    ensures t.workers != [] && t.workers[0].flushed == s.workers[0].flushed + [s.workers[0].buffer.pending]
  {
    assert Reachable(c, s);
    var steps := TimelyFlush.PendingEventsGetFlushed(c, s, 0);
    hide RunFrom, Next, Enabled;
    var more := [Tick(TimelyFlush.Remaining(c, s, 0))] + TimelyFlush.WorkOf(0, steps);
    RunsCompose(c, Init(c), run, more);
    t := RunFrom(c, s, more).value;
  }

  /** A worker has processed its first event while the call that sent it has yet to count it. */
  lemma FlushedBeforeCounted(c: Config, e: Event) returns (s: State)
    requires c.workers > 0
    ensures Reachable(c, s) && |s.calls| == 1 && s.calls[0].pc == Counting(Received)
    ensures s.workers != [] && s.workers[0].flushed != []
    ensures s.workers[0].flushed[|s.workers[0].flushed| - 1] != []
  {
    var run;
    run, s := FirstEventAdded(c, e);
    assert Reachable(c, s);
    if s.workers[0].buffer.pending != [] {
      s := PendingGone(c, run, s);
    }
  }

  lemma LastBatchCompleted(w: Worker)
    requires w.flushed != [] && w.flushed[|w.flushed| - 1] != []
    ensures Completed(w) > 0
  {
  }

  /** `processed` can be ahead of `received` exactly when there is a worker: the counter is
      incremented after the send. */
  lemma ProcessedCanRunAheadExactly(c: Config)
    ensures (exists s: State :: Reachable(c, s) && s.received < s.processed) <==> c.workers > 0
  {
    if c.workers > 0 {
      var s := FlushedBeforeCounted(c, Gameplay("", "", 0, "", None));
      LastBatchCompleted(s.workers[0]);
      ReachableAccounting(c, s);
      TallyZero(s.calls, Done(Received));
      Flow.ReachableFlow(c, s);
      SumAtLeast(s.workers, 0);
    }
    forall s | Reachable(c, s) && s.received < s.processed
      ensures c.workers > 0
    {
      Flow.ReachableFlow(c, s);
    }
  }
}
