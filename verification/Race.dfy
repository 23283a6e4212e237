/** Check and mark are two steps: which configurations let the race between them send the same
    event twice within one window. */
module Race {
  import opened Wrappers
  import opened Events
  import opened Pipeline
  import opened Flow
  import Accounting
  import EarlyFlush

  /** Calls `i` and `j` both had `e` sent, with marks no further apart than the window. */
  predicate SentTwice(s: State, i: nat, j: nat, e: Event, ttl: nat) {
    && i < j < |s.calls|
    && s.calls[i].event == e && s.calls[j].event == e
    && s.calls[i].Accepted() && s.calls[j].Accepted()
    && s.calls[i].marked.Some? && s.calls[j].marked.Some?
    && s.calls[i].marked.value.time <= s.calls[j].marked.value.time + ttl
    && s.calls[j].marked.value.time <= s.calls[i].marked.value.time + ttl
  }

  // ----- two sends need room

  lemma {:induction false} TwoTallied(calls: seq<Call>, i: nat, j: nat)
    requires i < j < |calls| && calls[i].Accepted() && calls[j].Accepted()
    ensures Accounting.Tally(calls, Counting(Received)) + Accounting.Tally(calls, Done(Received)) >= 2
  {
    var n := |calls| - 1;
    if j < n {
      TwoTallied(calls[..n], i, j);
    } else {
      assert calls[..n][i] == calls[i];
      Accounting.TallyPositive(calls[..n], i);
    }
  }

  lemma TakesNeedWorkers(taken: seq<Take>, n: nat)
    requires forall i :: 0 <= i < |taken| ==> taken[i].worker < n
    ensures taken != [] ==> n > 0
  {
    if taken != [] {
      assert taken[0].worker < n;
    }
  }

  lemma SendsNeedRoom(c: Config, s: State, i: nat, j: nat, e: Event)
    requires c.dedup.Memory? && Reachable(c, s) && SentTwice(s, i, j, e, c.dedup.ttl)
    ensures c.workers > 0 || c.capacity >= 2
  {
    ReachableFlow(c, s);
    Accounting.ReachableAccounting(c, s);
    TwoTallied(s.calls, i, j);
    AllLength(s.taken);
    TakesNeedWorkers(s.taken, |s.workers|);
  }

  // ----- the race

  /** Two calls with the same event both check before either marks. */
  lemma BothCheck(c: Config, e: Event) returns (run: seq<Action>, s: State)
    requires c.dedup.Memory?
    ensures RunFrom(c, Init(c), run) == Some(s)
    ensures var call := Call(e, e.DeduplicationKey(), Marking, 0, Some(Instant(2, 0)), None, None);
            s == Init(c).(order := 4, calls := [call, call.(started := 1, checked := Some(Instant(3, 0)))])
  {
    run, s := [], Init(c);
    RunFromAppend(c, Init(c), run, Start(e));
    run, s := run + [Start(e)], Next(c, s, Start(e));
    RunFromAppend(c, Init(c), run, Start(e));
    run, s := run + [Start(e)], Next(c, s, Start(e));
    RunFromAppend(c, Init(c), run, Check(0, New));
    run, s := run + [Check(0, New)], Next(c, s, Check(0, New));
    RunFromAppend(c, Init(c), run, Check(1, New));
    run, s := run + [Check(1, New)], Next(c, s, Check(1, New));
  }

  /** Both calls are about to send `e` and have marked it at the same time. */
  predicate BothMarked(c: Config, s: State, e: Event) {
    && |s.calls| == 2 && s.calls[0].pc.Trying? && s.calls[1].pc.Trying?
    && s.calls[0].event == e && s.calls[1].event == e
    && s.calls[0].marked.Some? && s.calls[1].marked.Some?
    && s.calls[0].marked.value.time == s.calls[1].marked.value.time
    && s.workers == Init(c).workers && s.channel == [] && s.shutdown.NotCalled?
  }

  lemma BothMark(c: Config, e: Event) returns (run: seq<Action>, s: State)
    requires c.dedup.Memory?
    ensures RunFrom(c, Init(c), run) == Some(s) && BothMarked(c, s, e)
  {
    run, s := BothCheck(c, e);
    RunFromAppend(c, Init(c), run, Mark(0, true));
    run, s := run + [Mark(0, true)], Next(c, s, Mark(0, true));
    RunFromAppend(c, Init(c), run, Mark(1, true));
    run, s := run + [Mark(1, true)], Next(c, s, Mark(1, true));
  }

  lemma BothHandOver(c: Config, before: seq<Action>, s: State, e: Event) returns (t: State)
    requires RunFrom(c, Init(c), before) == Some(s) && BothMarked(c, s, e)
    requires c.dedup.Memory? && c.workers > 0
    ensures Reachable(c, t) && SentTwice(t, 0, 1, e, c.dedup.ttl)
  {
    hide *;
    BothReady(c, s, e);
    var run, u := EarlyFlush.Feed(c, before, s, 0);
    run, t := EarlyFlush.Feed(c, run, u, 1);
    ReachedBy(c, run, t);
    BothSent(c, s, u, t, e);
  }

  lemma BothReady(c: Config, s: State, e: Event)
    requires BothMarked(c, s, e) && c.workers > 0
    ensures EarlyFlush.Idle(c, s) && EarlyFlush.Ready(s, 0) && |s.calls| == 2
  {
  }

  lemma ReachedBy(c: Config, run: seq<Action>, s: State)
    requires RunFrom(c, Init(c), run) == Some(s)
    ensures Reachable(c, s)
  {
  }

  lemma BothSent(c: Config, s: State, t: State, u: State, e: Event)
    requires c.dedup.Memory? && BothMarked(c, s, e)
    requires t.calls == s.calls[0 := s.calls[0].(pc := Counting(Received))]
    requires u.calls == t.calls[1 := t.calls[1].(pc := Counting(Received))]
    ensures SentTwice(u, 0, 1, e, c.dedup.ttl)
  {
  }

  lemma BothQueue(c: Config, before: seq<Action>, s: State, e: Event) returns (t: State)
    requires RunFrom(c, Init(c), before) == Some(s) && BothMarked(c, s, e)
    requires c.dedup.Memory? && c.capacity >= 2
    ensures Reachable(c, t) && SentTwice(t, 0, 1, e, c.dedup.ttl)
  {
    RunFromAppend(c, Init(c), before, Send(0));
    var run;
    run, t := before + [Send(0)], Next(c, s, Send(0));
    RunFromAppend(c, Init(c), run, Send(1));
    run, t := run + [Send(1)], Next(c, t, Send(1));
    assert Reachable(c, t);
  }

  /** Two overlapping calls can both have the same event sent within one window exactly when the
      pipeline can take two events at all: with a worker, or room for two in the channel. */
  lemma RacePossibleExactly(c: Config, e: Event)
    requires c.dedup.Memory?
    ensures (exists s, i, j :: Reachable(c, s) && SentTwice(s, i, j, e, c.dedup.ttl))
       <==> c.workers > 0 || c.capacity >= 2
  {
    forall s, i, j | Reachable(c, s) && SentTwice(s, i, j, e, c.dedup.ttl)
      ensures c.workers > 0 || c.capacity >= 2
    {
      SendsNeedRoom(c, s, i, j, e);
    }
    hide Reachable, SentTwice, RunFrom, BothMarked;
    var run, s := BothMark(c, e);
    if c.workers > 0 {
      var t := BothHandOver(c, run, s, e);
    } else if c.capacity >= 2 {
      var t := BothQueue(c, run, s, e);
    }
  }
}
