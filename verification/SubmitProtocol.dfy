/** The order of the steps of a `Submit` call, for every kind of deduplicator: what has to happen
    before an event is sent, and what decides that it is not. */
module SubmitProtocol {
  import opened Wrappers
  import opened Events
  import opened Pipeline

  // ----- one call per Submit

  /** The events of the `Submit` calls a run starts, in order. */
  function Started(run: seq<Action>): seq<Event> {
    if run == [] then []
    else Started(run[..|run| - 1]) + if run[|run| - 1].Start? then [run[|run| - 1].event] else []
  }

  lemma CallsStay(c: Config, s: State, a: Action)
    requires Enabled(c, s, a)
    ensures var t := Next(c, s, a);
            && |t.calls| == |s.calls| + (if a.Start? then 1 else 0)
            && (a.Start? ==> t.calls[|s.calls|].event == a.event)
            && forall i :: 0 <= i < |s.calls| ==> t.calls[i].event == s.calls[i].event
  {
  }

  /** The calls of a state are the `Submit` calls that were started, each with its own event. */
  lemma {:induction false} CallsAreStarts(c: Config, run: seq<Action>)
    requires RunFrom(c, Init(c), run).Some?
    ensures var s := RunFrom(c, Init(c), run).value;
            && |s.calls| == |Started(run)|
            && forall i :: 0 <= i < |s.calls| ==> s.calls[i].event == Started(run)[i]
  {
    if run != [] {
      hide Enabled, Next;
      var front := run[..|run| - 1];
      CallsAreStarts(c, front);
      CallsStay(c, RunFrom(c, Init(c), front).value, run[|run| - 1]);
    }
  }

  // ----- with a deduplicator every call goes through its check, without one none does

  /** Whether the call has been checked shows in where it is. */
  ghost predicate CheckInv(c: Config, call: Call) {
    && (c.dedup.NoDedup? ==>
          call.checked.None? && call.marked.None? && !call.pc.Checking? && !call.pc.Marking? && !call.Rejected())
    && (!c.dedup.NoDedup? ==> (call.checked.Some? <==> !call.pc.Checking?))
  }

  ghost predicate ChecksInv(c: Config, calls: seq<Call>) {
    forall i :: 0 <= i < |calls| ==> CheckInv(c, calls[i])
  }

  lemma NewCallChecks(c: Config, s: State, e: Event)
    ensures CheckInv(c, Next(c, s, Start(e)).calls[|s.calls|])
    ensures Next(c, s, Start(e)).calls[..|s.calls|] == s.calls
  {
  }

  lemma OwnStepChecks(c: Config, s: State, a: Action, i: nat)
    requires Enabled(c, s, a) && StepOf(a, i) && i < |s.calls| && CheckInv(c, s.calls[i])
    ensures i < |Next(c, s, a).calls| && CheckInv(c, Next(c, s, a).calls[i])
  {
  }

  lemma StepKeepsChecks(c: Config, s: State, a: Action)
    requires Enabled(c, s, a) && ChecksInv(c, s.calls)
    ensures ChecksInv(c, Next(c, s, a).calls)
  {
    var t := Next(c, s, a);
    CallsStay(c, s, a);
    hide Enabled, Next, CheckInv;
    forall i | 0 <= i < |t.calls|
      ensures CheckInv(c, t.calls[i])
    {
      if i == |s.calls| {
        NewCallChecks(c, s, a.event);
      } else if StepOf(a, i) {
        OwnStepChecks(c, s, a, i);
      } else {
        OtherCallsStay(c, s, a, i);
      }
    }
  }

  lemma {:induction false} RunKeepsChecks(c: Config, run: seq<Action>)
    requires RunFrom(c, Init(c), run).Some?
    ensures ChecksInv(c, RunFrom(c, Init(c), run).value.calls)
  {
    if run != [] {
      hide Enabled, Next, CheckInv;
      RunKeepsChecks(c, run[..|run| - 1]);
      StepKeepsChecks(c, RunFrom(c, Init(c), run[..|run| - 1]).value, run[|run| - 1]);
    }
  }

  /** With a deduplicator, of whatever kind, a call has been checked exactly if it is past its
      check; so no event is sent and no call is rejected, blocked or dropped unchecked. */
  lemma EveryCallIsChecked(c: Config, s: State, i: nat)
    requires Reachable(c, s) && i < |s.calls| && !c.dedup.NoDedup?
    ensures s.calls[i].checked.Some? <==> !s.calls[i].pc.Checking?
    ensures s.calls[i].ReachedSend() || s.calls[i].Rejected() ==> s.calls[i].checked.Some?
  {
    var run :| RunFrom(c, Init(c), run) == Some(s);
    RunKeepsChecks(c, run);
    assert CheckInv(c, s.calls[i]);
  }

  /** Without a deduplicator no call is ever checked, marked or rejected. */
  lemma NoDedupNoCheck(c: Config, s: State, i: nat)
    requires Reachable(c, s) && i < |s.calls| && c.dedup.NoDedup?
    ensures s.calls[i].checked.None? && s.calls[i].marked.None?
    ensures !s.calls[i].pc.Checking? && !s.calls[i].pc.Marking? && !s.calls[i].Rejected()
  {
    var run :| RunFrom(c, Init(c), run) == Some(s);
    RunKeepsChecks(c, run);
    assert CheckInv(c, s.calls[i]);
  }

  // ----- the answer decides

  predicate SendsCall(a: Action, i: nat) {
    (a.Send? && a.call == i) || (a.Handoff? && a.call == i)
  }

  predicate MarksCall(a: Action, i: nat) {
    a.Mark? && a.call == i
  }

  ghost predicate MarkedIn(run: seq<Action>, i: nat) {
    exists k :: 0 <= k < |run| && MarksCall(run[k], i)
  }

  lemma MarkedInMore(run: seq<Action>, i: nat)
    requires run != []
    ensures MarkedIn(run, i) <==> MarkedIn(run[..|run| - 1], i) || MarksCall(run[|run| - 1], i)
  {
    var n := |run| - 1;
    if MarkedIn(run[..n], i) {
      var k :| 0 <= k < n && MarksCall(run[..n][k], i);
      assert MarksCall(run[k], i);
    }
    if MarkedIn(run, i) && !MarksCall(run[n], i) {
      var k :| 0 <= k < |run| && MarksCall(run[k], i);
      assert MarksCall(run[..n][k], i);
    }
  }

  /** Where a call is after its check, given the answer and whether it has been marked since. */
  predicate AfterCheck(call: Call, known: bool, marked: bool) {
    && call.checked.Some?
    && (known ==> call.Rejected())
    && (!known && !marked ==> call.pc.Marking?)
    && (!known && marked ==> call.ReachedSend())
  }

  lemma StepAfterCheck(c: Config, s: State, a: Action, i: nat, known: bool, marked: bool)
    requires Enabled(c, s, a) && i < |s.calls| && AfterCheck(s.calls[i], known, marked) && (known ==> !marked)
    ensures i < |Next(c, s, a).calls| && AfterCheck(Next(c, s, a).calls[i], known, marked || MarksCall(a, i))
    ensures MarksCall(a, i) ==> !known
    ensures SendsCall(a, i) ==> marked
  {
    if !StepOf(a, i) {
      OtherCallsStay(c, s, a, i);
    }
  }

  lemma {:induction false} RunAfterCheck(c: Config, s: State, run: seq<Action>, i: nat, known: bool)
    requires RunFrom(c, s, run).Some? && i < |s.calls| && AfterCheck(s.calls[i], known, false)
    ensures var t := RunFrom(c, s, run).value;
            i < |t.calls| && AfterCheck(t.calls[i], known, MarkedIn(run, i)) && (known ==> !MarkedIn(run, i))
  {
    if run != [] {
      hide Enabled, Next, AfterCheck, MarkedIn;
      var n := |run| - 1;
      RunAfterCheck(c, s, run[..n], i, known);
      StepAfterCheck(c, RunFrom(c, s, run[..n]).value, run[n], i, known, MarkedIn(run[..n], i));
      MarkedInMore(run, i);
    } else {
      assert !MarkedIn([], i);
    }
  }

  lemma SentAfterMark(c: Config, s: State, run: seq<Action>, i: nat, known: bool, k: nat)
    requires RunFrom(c, s, run).Some? && i < |s.calls| && AfterCheck(s.calls[i], known, false)
    requires k < |run| && SendsCall(run[k], i)
    ensures MarkedIn(run[..k], i) && !known
  {
    PrefixRuns(c, s, run, k + 1);
    assert run[..k + 1][..k] == run[..k] && run[..k + 1][k] == run[k];
    assert Enabled(c, RunFrom(c, s, run[..k]).value, run[k]);
    hide Enabled, Next, AfterCheck, MarkedIn, RunFrom;
    RunAfterCheck(c, s, run[..k], i, known);
    StepAfterCheck(c, RunFrom(c, s, run[..k]).value, run[k], i, known, MarkedIn(run[..k], i));
  }

  /** The answer of the check decides, for every deduplicator and in every run: the call is
      rejected if and only if the answer was that the event is known. Any other answer, a failure
      included, lets it pass: it has been marked, or is about to be, and is marked before
      its event is sent. A rejected call is neither marked nor sent. */
  lemma CheckDecides(c: Config, s: State, i: nat, answer: Answer, run: seq<Action>)
    requires Enabled(c, s, Check(i, answer))
    requires RunFrom(c, Next(c, s, Check(i, answer)), run).Some?
    ensures var t := RunFrom(c, Next(c, s, Check(i, answer)), run).value;
            && i < |t.calls|
            && (t.calls[i].Rejected() <==> answer.Known?)
            && (!answer.Known? ==> if MarkedIn(run, i) then t.calls[i].ReachedSend() else t.calls[i].pc.Marking?)
            && (answer.Known? ==> !MarkedIn(run, i))
    ensures forall k :: 0 <= k < |run| && SendsCall(run[k], i) ==> !answer.Known? && MarkedIn(run[..k], i)
  {
    var start := Next(c, s, Check(i, answer));
    assert AfterCheck(start.calls[i], answer.Known?, false);
    hide Enabled, Next;
    RunAfterCheck(c, start, run, i, answer.Known?);
    forall k | 0 <= k < |run| && SendsCall(run[k], i)
      ensures !answer.Known? && MarkedIn(run[..k], i)
    {
      SentAfterMark(c, start, run, i, answer.Known?, k);
    }
  }
}
