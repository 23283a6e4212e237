/** The cache inside the pipeline is the deduplicator's cache: it replays the marks and sweeps of
    the run, so the law of the cache decides which calls are rejected. */
module CacheLaw {
  import opened Pipeline
  import opened DedupWindow
  import TtlCache

  /** What an action taken in `s` does to the deduplicator. */
  function Recorded(s: State, a: Action): TtlCache.History {
    match a
    case Mark(i, _) => if i < |s.calls| then [TtlCache.Op.Mark(s.calls[i].key, s.now)] else []
    case Sweep => [TtlCache.Op.Sweep(s.now)]
    case _ => []
  }

  /** The marks and sweeps of a run of the pipeline, each with its time. */
  function CacheHistory(c: Config, run: seq<Action>): TtlCache.History
    requires RunFrom(c, Init(c), run).Some?
  {
    if run == [] then []
    else
      var front := run[..|run| - 1];
      CacheHistory(c, front) + Recorded(RunFrom(c, Init(c), front).value, run[|run| - 1])
  }

  ghost predicate Replayed(s: State, h: TtlCache.History, ttl: nat) {
    && s.cache == TtlCache.Replay(h, ttl)
    && TtlCache.Timed(h)
    && TtlCache.NotAfter(h, s.now)
  }

  lemma ReplayAppend(h: TtlCache.History, op: TtlCache.Op, ttl: nat, now: nat)
    requires TtlCache.Timed(h) && TtlCache.NotAfter(h, now) && op.time == now
    ensures TtlCache.Timed(h + [op]) && TtlCache.NotAfter(h + [op], now)
    ensures TtlCache.Replay(h + [op], ttl) == TtlCache.Applied(TtlCache.Replay(h, ttl), op, ttl)
  {
    assert (h + [op])[..|h|] == h;
  }

  lemma OthersKeepCache(c: Config, s: State, a: Action)
    requires Enabled(c, s, a)
    ensures s.now <= Next(c, s, a).now
    ensures !a.Mark? && !a.Sweep? ==> Next(c, s, a).cache == s.cache
  {
  }

  lemma CacheStep(c: Config, s: State, a: Action)
    requires c.dedup.Memory? && Enabled(c, s, a)
    ensures var t := Next(c, s, a);
            && s.now <= t.now
            && (a.Mark? ==> a.call < |s.calls| && t.cache == TtlCache.MarkAt(s.cache, s.calls[a.call].key, s.now))
            && (a.Sweep? ==> t.cache == TtlCache.Swept(s.cache, c.dedup.ttl, s.now))
            && (!a.Mark? && !a.Sweep? ==> t.cache == s.cache)
  {
    OthersKeepCache(c, s, a);
  }

  lemma StepKeepsReplayed(c: Config, s: State, a: Action, h: TtlCache.History)
    requires c.dedup.Memory? && Enabled(c, s, a) && Replayed(s, h, c.dedup.ttl)
    ensures Replayed(Next(c, s, a), h + Recorded(s, a), c.dedup.ttl)
  {
    CacheStep(c, s, a);
    hide Enabled, Next;
    match a
    case Mark(i, _) => ReplayAppend(h, TtlCache.Op.Mark(s.calls[i].key, s.now), c.dedup.ttl, s.now);
    case Sweep => ReplayAppend(h, TtlCache.Op.Sweep(s.now), c.dedup.ttl, s.now);
    case _ => assert h + [] == h;
  }

  /** At the end of every run the cache is the replay of the run's marks and sweeps, and these
      have happened under a clock that does not run backwards. */
  lemma {:induction false} CacheIsReplay(c: Config, run: seq<Action>)
    requires c.dedup.Memory? && RunFrom(c, Init(c), run).Some?
    ensures var s, h := RunFrom(c, Init(c), run).value, CacheHistory(c, run);
            s.cache == TtlCache.Replay(h, c.dedup.ttl) && TtlCache.Timed(h) && TtlCache.NotAfter(h, s.now)
  {
    if run != [] {
      var front, a := run[..|run| - 1], run[|run| - 1];
      CacheIsReplay(c, front);
      StepKeepsReplayed(c, RunFrom(c, Init(c), front).value, a, CacheHistory(c, front));
    }
  }

  lemma {:induction false} OrderCountsActions(c: Config, run: seq<Action>)
    requires RunFrom(c, Init(c), run).Some?
    ensures RunFrom(c, Init(c), run).value.order == |run|
  {
    if run != [] {
      hide Enabled, Effect;
      OrderCountsActions(c, run[..|run| - 1]);
    }
  }

  /** A check that has been made, and its answer, stay. */
  lemma ChecksStay(c: Config, s: State, a: Action, i: nat)
    requires Enabled(c, s, a) && i < |s.calls| && !s.calls[i].pc.Checking?
    ensures var t := Next(c, s, a);
            && i < |t.calls| && !t.calls[i].pc.Checking?
            && t.calls[i].checked == s.calls[i].checked && t.calls[i].key == s.calls[i].key
            && t.calls[i].Rejected() == s.calls[i].Rejected()
  {
    if !StepOf(a, i) {
      OtherCallsStay(c, s, a, i);
    }
  }

  /** A check is made by the check's own action, with the cache's answer. */
  lemma ChecksAppear(c: Config, s: State, a: Action, i: nat)
    requires c.dedup.Memory? && Enabled(c, s, a) && i < |Next(c, s, a).calls|
    requires Next(c, s, a).calls[i].checked.Some?
    requires i < |s.calls| ==> s.calls[i].checked.None?
    ensures var t := Next(c, s, a);
            && i < |s.calls| && t.calls[i].key == s.calls[i].key
            && t.calls[i].checked.value.order == s.order
            && (t.calls[i].Rejected() <==> t.calls[i].key in s.cache)
  {
    if i < |s.calls| && !StepOf(a, i) {
      OtherCallsStay(c, s, a, i);
    }
  }

  /** The states of the calls that have made their check. */
  lemma CheckedPc(c: Config, run: seq<Action>, i: nat)
    requires c.dedup.Memory? && RunFrom(c, Init(c), run).Some?
    requires i < |RunFrom(c, Init(c), run).value.calls|
    ensures var call := RunFrom(c, Init(c), run).value.calls[i];
            call.checked.None? <==> call.pc.Checking?
  {
    RunKeepsDedup(c, run);
    var s := RunFrom(c, Init(c), run).value;
    assert CallInv(s.calls[i], s.order, s.now);
  }

  /** The marks and sweeps of `run` before the check of `call` decided its answer. */
  ghost predicate Decided(c: Config, run: seq<Action>, call: Call)
    requires c.dedup.Memory? && call.checked.Some?
  {
    var n := call.checked.value.order;
    && n < |run| && RunFrom(c, Init(c), run[..n]).Some?
    && (call.Rejected() <==> TtlCache.SurvivedSweeps(CacheHistory(c, run[..n]), c.dedup.ttl, call.key))
  }

  lemma DecidedStays(c: Config, run: seq<Action>, call: Call, later: Call)
    requires c.dedup.Memory? && run != [] && call.checked.Some? && Decided(c, run[..|run| - 1], call)
    requires later.checked == call.checked && later.key == call.key && later.Rejected() == call.Rejected()
    ensures Decided(c, run, later)
  {
    var n := call.checked.value.order;
    assert run[..|run| - 1][..n] == run[..n];
    hide RunFrom, CacheHistory, TtlCache.SurvivedSweeps;
  }

  lemma DecidedNow(c: Config, run: seq<Action>, call: Call)
    requires c.dedup.Memory? && run != [] && RunFrom(c, Init(c), run[..|run| - 1]).Some?
    requires call.checked.Some? && call.checked.value.order == |run| - 1
    requires call.Rejected() <==> call.key in RunFrom(c, Init(c), run[..|run| - 1]).value.cache
    ensures Decided(c, run, call)
  {
    hide RunFrom, CacheHistory, Init;
    var front := run[..|run| - 1];
    CacheIsReplay(c, front);
    TtlCache.HeldExactly(CacheHistory(c, front), c.dedup.ttl, call.key);
  }

  /** The answer of a check is decided by the marks and sweeps before it: a call is rejected if
      and only if the last mark of its key had, when the call checked, survived the last sweep. */
  lemma {:induction false} RejectedExactly(c: Config, run: seq<Action>, i: nat)
    requires c.dedup.Memory? && RunFrom(c, Init(c), run).Some?
    requires i < |RunFrom(c, Init(c), run).value.calls|
    requires RunFrom(c, Init(c), run).value.calls[i].checked.Some?
    ensures var call := RunFrom(c, Init(c), run).value.calls[i];
            var n := call.checked.value.order;
            && n < |run| && RunFrom(c, Init(c), run[..n]).Some?
            && (call.Rejected() <==> TtlCache.SurvivedSweeps(CacheHistory(c, run[..n]), c.dedup.ttl, call.key))
  {
    if run != [] {
      hide Enabled, Next, CacheHistory, TtlCache.SurvivedSweeps;
      var front, a := run[..|run| - 1], run[|run| - 1];
      var s := RunFrom(c, Init(c), front).value;
      var t := Next(c, s, a);
      if i < |s.calls| && s.calls[i].checked.Some? {
        RejectedExactly(c, front, i);
        CheckedPc(c, front, i);
        ChecksStay(c, s, a, i);
        DecidedStays(c, run, s.calls[i], t.calls[i]);
      } else {
        ChecksAppear(c, s, a, i);
        OrderCountsActions(c, front);
        DecidedNow(c, run, t.calls[i]);
      }
    }
  }
}
