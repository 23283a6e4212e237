/** What the non-atomic check-then-mark of `Submit` guarantees with the in-memory
    deduplicator, over every interleaving of calls, sweeps and clock ticks. */
module DedupWindow {
  import opened Wrappers
  import opened Events
  import opened Pipeline
  import TtlCache

  predicate Before(t: Instant, order: nat, now: nat) {
    t.order < order && t.time <= now
  }

  /** The phases of one call and the order of its own instants. */
  ghost predicate CallInv(call: Call, order: nat, now: nat) {
    && call.key == call.event.DeduplicationKey()
    && call.started < order
    && (call.ended.Some? <==> call.Finished())
    && (call.ended.Some? ==> call.ended.value < order)
    && (call.checked.None? <==> call.pc.Checking?)
    && (call.marked.Some? <==> call.ReachedSend())
    && (call.checked.Some? ==> Before(call.checked.value, order, now) && call.started < call.checked.value.order)
    && (call.marked.Some? ==>
          && Before(call.marked.value, order, now)
          && call.checked.Some?
          && call.checked.value.order < call.marked.value.order
          && call.checked.value.time <= call.marked.value.time
          && (call.ended.Some? ==> call.marked.value.order < call.ended.value))
  }

  ghost predicate CallsInv(calls: seq<Call>, order: nat, now: nat) {
    forall i :: 0 <= i < |calls| ==> CallInv(calls[i], order, now)
  }

  /** The cache still holds a mark at least as recent as `call`'s, or that mark has expired. */
  ghost predicate Remembered(call: Call, cache: TtlCache.Cache, ttl: nat, now: nat) {
    call.marked.Some? ==>
      || (call.key in cache && cache[call.key] >= call.marked.value.time)
      || now > call.marked.value.time + ttl
  }

  ghost predicate MarksRemembered(calls: seq<Call>, cache: TtlCache.Cache, ttl: nat, now: nat) {
    forall i :: 0 <= i < |calls| ==> Remembered(calls[i], cache, ttl, now)
  }

  /** Call `i` put the stored time of `key` into the cache. */
  predicate MarkedWith(call: Call, key: string, time: nat) {
    call.key == key && call.marked.Some? && call.marked.value.time == time
  }

  ghost predicate CacheFromMarks(calls: seq<Call>, cache: TtlCache.Cache) {
    forall key :: key in cache ==> exists i :: 0 <= i < |calls| && MarkedWith(calls[i], key, cache[key])
  }

  /** If `j` checked after `i` marked the same key and was not rejected, it checked after the
      mark had expired. */
  ghost predicate Separated(i: Call, j: Call, ttl: nat) {
    i.key == j.key && i.marked.Some? && j.checked.Some? && !j.Rejected()
    && i.marked.value.order < j.checked.value.order
    ==> j.checked.value.time > i.marked.value.time + ttl
  }

  ghost predicate AllSeparated(calls: seq<Call>, ttl: nat) {
    forall i, j :: 0 <= i < |calls| && 0 <= j < |calls| ==> Separated(calls[i], calls[j], ttl)
  }

  /** Call `i` marked the key of `j` before `j` checked it. */
  predicate MarkedEarlier(i: Call, j: Call) {
    i.key == j.key && i.marked.Some? && j.checked.Some? && i.marked.value.order < j.checked.value.order
  }

  ghost predicate RejectionsJustified(calls: seq<Call>) {
    forall j :: 0 <= j < |calls| && calls[j].Rejected() ==>
      exists i :: 0 <= i < |calls| && MarkedEarlier(calls[i], calls[j])
  }

  /** The invariant, on the parts of the state it depends on. */
  ghost predicate HistoryInv(calls: seq<Call>, cache: TtlCache.Cache, ttl: nat, order: nat, now: nat) {
    && CallsInv(calls, order, now)
    && MarksRemembered(calls, cache, ttl, now)
    && CacheFromMarks(calls, cache)
    && AllSeparated(calls, ttl)
    && RejectionsJustified(calls)
  }

  ghost predicate DedupInv(c: Config, s: State)
    requires c.dedup.Memory?
  {
    HistoryInv(s.calls, s.cache, c.dedup.ttl, s.order, s.now)
  }

  // ----- facts about replacing calls

  predicate SameMark(a: Call, b: Call) {
    a.key == b.key && a.marked == b.marked
  }

  /** A new version of a call that keeps everything the other calls can observe. */
  predicate SameHistory(a: Call, b: Call) {
    SameMark(a, b) && a.checked == b.checked && a.Rejected() == b.Rejected()
  }

  lemma CacheFrame(calls: seq<Call>, moved: seq<Call>, cache: TtlCache.Cache, ttl: nat, now: nat)
    requires |calls| <= |moved| && forall k :: 0 <= k < |calls| ==> SameMark(calls[k], moved[k])
    requires forall k :: |calls| <= k < |moved| ==> moved[k].marked.None?
    requires CacheFromMarks(calls, cache) && MarksRemembered(calls, cache, ttl, now)
    ensures CacheFromMarks(moved, cache) && MarksRemembered(moved, cache, ttl, now)
  {
    forall key | key in cache
      ensures exists k :: 0 <= k < |moved| && MarkedWith(moved[k], key, cache[key])
    {
      var k :| 0 <= k < |calls| && MarkedWith(calls[k], key, cache[key]);
      assert MarkedWith(moved[k], key, cache[key]);
    }
    forall k | 0 <= k < |moved|
      ensures Remembered(moved[k], cache, ttl, now)
    {
      if k < |calls| {
        assert Remembered(calls[k], cache, ttl, now);
      }
    }
  }

  lemma ChecksFrame(calls: seq<Call>, moved: seq<Call>, ttl: nat)
    requires |calls| <= |moved| && forall k :: 0 <= k < |calls| ==> SameHistory(calls[k], moved[k])
    requires forall k :: |calls| <= k < |moved| ==>
               moved[k].marked.None? && moved[k].checked.None? && !moved[k].Rejected()
    requires AllSeparated(calls, ttl) && RejectionsJustified(calls)
    ensures AllSeparated(moved, ttl) && RejectionsJustified(moved)
  {
    forall i, j | 0 <= i < |moved| && 0 <= j < |moved|
      ensures Separated(moved[i], moved[j], ttl)
    {
      if i < |calls| && j < |calls| {
        assert Separated(calls[i], calls[j], ttl);
      }
    }
    forall j | 0 <= j < |moved| && moved[j].Rejected()
      ensures exists k :: 0 <= k < |moved| && MarkedEarlier(moved[k], moved[j])
    {
      var k :| 0 <= k < |calls| && MarkedEarlier(calls[k], calls[j]);
      assert MarkedEarlier(moved[k], moved[j]);
    }
  }

  lemma CallInvLater(call: Call, order: nat, now: nat, order': nat, now': nat)
    requires CallInv(call, order, now) && order <= order' && now <= now'
    ensures CallInv(call, order', now')
  {
  }

  lemma CallsInvReplace(calls: seq<Call>, order: nat, now: nat, i: nat, call: Call, order': nat)
    requires CallsInv(calls, order, now) && i < |calls| && order <= order'
    requires CallInv(call, order', now)
    ensures CallsInv(calls[i := call], order', now)
  {
    forall k | 0 <= k < |calls| && k != i
      ensures CallInv(calls[k], order', now)
    {
      CallInvLater(calls[k], order, now, order', now);
    }
  }

  // ----- the steps of a call that leave its history alone

  lemma MoveKeepsInv(calls: seq<Call>, cache: TtlCache.Cache, ttl: nat, order: nat, now: nat, i: nat, call: Call)
    requires HistoryInv(calls, cache, ttl, order, now)
    requires i < |calls| && SameHistory(calls[i], call) && CallInv(call, order + 1, now)
    ensures HistoryInv(calls[i := call], cache, ttl, order + 1, now)
  {
    CallsInvReplace(calls, order, now, i, call, order + 1);
    CacheFrame(calls, calls[i := call], cache, ttl, now);
    ChecksFrame(calls, calls[i := call], ttl);
  }

  predicate Move(a: Action) {
    a.Send? || a.Handoff? || a.FindFull? || a.Park? || a.Drop? || a.Panic? || a.Count?
  }

  lemma MovePlaces(c: Config, s: State, a: Action)
    requires c.dedup.Memory? && Enabled(c, s, a) && Move(a)
    ensures var t, i := Next(c, s, a), a.call;
            && i < |s.calls| == |t.calls| && t.calls == s.calls[i := t.calls[i]]
            && t.order == s.order + 1 && t.now == s.now && t.cache == s.cache
  {
  }

  /** From where to where such a step takes a call. */
  predicate MovesTo(before: CallPc, after: CallPc) {
    || ((before.Trying? || before.Blocked? || before.Parked?) && (after == Counting(Received) || after.Panicked?))
    || (before.Trying? && after.Blocked?)
    || (before.Blocked? && (after.Parked? || after == Counting(Dropped)))
    || (before.Counting? && after == Done(before.outcome))
  }

  lemma MoveCall(c: Config, s: State, a: Action)
    requires c.dedup.Memory? && Enabled(c, s, a) && Move(a)
    ensures var t, i := Next(c, s, a), a.call;
            && i < |s.calls| && i < |t.calls| && MovesTo(s.calls[i].pc, t.calls[i].pc)
            && t.calls[i] == s.calls[i].(pc := t.calls[i].pc, ended := t.calls[i].ended)
            && t.calls[i].ended == if t.calls[i].Finished() then Some(s.order) else s.calls[i].ended
  {
  }

  lemma MoveKeepsHistory(call: Call, moved: Call)
    requires MovesTo(call.pc, moved.pc) && moved == call.(pc := moved.pc, ended := moved.ended)
    ensures SameHistory(call, moved) && call.ReachedSend() == moved.ReachedSend()
    ensures !call.Finished() && !call.pc.Checking? && !moved.pc.Checking?
  {
  }

  /** Such a step changes one call and keeps its history. */
  lemma MoveFrame(c: Config, s: State, a: Action)
    requires c.dedup.Memory? && Enabled(c, s, a) && Move(a)
    ensures var t, i := Next(c, s, a), a.call;
            && i < |s.calls| == |t.calls| && t.calls == s.calls[i := t.calls[i]]
            && t.order == s.order + 1 && t.now == s.now && t.cache == s.cache
            && SameHistory(s.calls[i], t.calls[i])
            && t.calls[i].event == s.calls[i].event && t.calls[i].started == s.calls[i].started
            && !s.calls[i].Finished() && !s.calls[i].pc.Checking? && !t.calls[i].pc.Checking?
            && s.calls[i].ReachedSend() == t.calls[i].ReachedSend()
            && t.calls[i].ended == if t.calls[i].Finished() then Some(s.order) else s.calls[i].ended
  {
    MovePlaces(c, s, a);
    MoveCall(c, s, a);
    hide Enabled, Next;
    MoveKeepsHistory(s.calls[a.call], Next(c, s, a).calls[a.call]);
  }

  lemma MovedCallInv(call: Call, moved: Call, order: nat, now: nat)
    requires CallInv(call, order, now) && SameHistory(call, moved)
    requires moved.event == call.event && moved.started == call.started
    requires !call.Finished() && !call.pc.Checking? && !moved.pc.Checking?
    requires call.ReachedSend() == moved.ReachedSend()
    requires moved.ended == if moved.Finished() then Some(order) else call.ended
    ensures CallInv(moved, order + 1, now)
  {
  }

  // ----- a check

  function Checked(call: Call, order: nat, now: nat, answer: Answer): Call {
    call.(checked := Some(Instant(order, now)), pc := if answer.Known? then Counting(Duplicate) else Marking)
  }

  lemma CheckSeparates(calls: seq<Call>, cache: TtlCache.Cache, ttl: nat, order: nat, now: nat, i: nat, answer: Answer)
    requires HistoryInv(calls, cache, ttl, order, now)
    requires i < |calls| && calls[i].pc.Checking? && (answer.Known? <==> calls[i].key in cache)
    ensures AllSeparated(calls[i := Checked(calls[i], order, now, answer)], ttl)
  {
    var moved := calls[i := Checked(calls[i], order, now, answer)];
    forall a, b | 0 <= a < |calls| && 0 <= b < |calls|
      ensures Separated(moved[a], moved[b], ttl)
    {
      assert CallInv(calls[a], order, now) && CallInv(calls[b], order, now);
      assert Separated(calls[a], calls[b], ttl);
      assert Remembered(calls[a], cache, ttl, now);
    }
  }

  lemma CheckJustifies(calls: seq<Call>, cache: TtlCache.Cache, ttl: nat, order: nat, now: nat, i: nat, answer: Answer)
    requires HistoryInv(calls, cache, ttl, order, now)
    requires i < |calls| && calls[i].pc.Checking? && (answer.Known? <==> calls[i].key in cache)
    ensures RejectionsJustified(calls[i := Checked(calls[i], order, now, answer)])
  {
    var moved := calls[i := Checked(calls[i], order, now, answer)];
    assert CallInv(calls[i], order, now);
    forall j | 0 <= j < |moved| && moved[j].Rejected()
      ensures exists k :: 0 <= k < |moved| && MarkedEarlier(moved[k], moved[j])
    {
      if j == i {
        var k :| 0 <= k < |calls| && MarkedWith(calls[k], calls[i].key, cache[calls[i].key]);
        assert CallInv(calls[k], order, now);
        assert MarkedEarlier(moved[k], moved[i]);
      } else {
        var k :| 0 <= k < |calls| && MarkedEarlier(calls[k], calls[j]);
        assert k != i;
        assert MarkedEarlier(moved[k], moved[j]);
      }
    }
  }

  lemma CheckedCallInv(call: Call, order: nat, now: nat, answer: Answer)
    requires CallInv(call, order, now) && call.pc.Checking?
    ensures CallInv(Checked(call, order, now, answer), order + 1, now)
    ensures SameMark(call, Checked(call, order, now, answer))
  {
  }

  lemma CheckKeepsCache(calls: seq<Call>, cache: TtlCache.Cache, ttl: nat, order: nat, now: nat, i: nat, answer: Answer)
    requires CacheFromMarks(calls, cache) && MarksRemembered(calls, cache, ttl, now) && i < |calls|
    ensures var moved := calls[i := Checked(calls[i], order, now, answer)];
            CacheFromMarks(moved, cache) && MarksRemembered(moved, cache, ttl, now)
  {
    CacheFrame(calls, calls[i := Checked(calls[i], order, now, answer)], cache, ttl, now);
  }

  lemma CheckKeepsCalls(calls: seq<Call>, order: nat, now: nat, i: nat, answer: Answer)
    requires CallsInv(calls, order, now) && i < |calls| && calls[i].pc.Checking?
    ensures CallsInv(calls[i := Checked(calls[i], order, now, answer)], order + 1, now)
  {
    assert CallInv(calls[i], order, now);
    CheckedCallInv(calls[i], order, now, answer);
    CallsInvReplace(calls, order, now, i, Checked(calls[i], order, now, answer), order + 1);
  }

  lemma CheckKeepsInv(calls: seq<Call>, cache: TtlCache.Cache, ttl: nat, order: nat, now: nat, i: nat, answer: Answer)
    requires HistoryInv(calls, cache, ttl, order, now)
    requires i < |calls| && calls[i].pc.Checking? && (answer.Known? <==> calls[i].key in cache)
    ensures HistoryInv(calls[i := Checked(calls[i], order, now, answer)], cache, ttl, order + 1, now)
  {
    CheckKeepsCalls(calls, order, now, i, answer);
    CheckKeepsCache(calls, cache, ttl, order, now, i, answer);
    CheckSeparates(calls, cache, ttl, order, now, i, answer);
    CheckJustifies(calls, cache, ttl, order, now, i, answer);
  }

  // ----- a mark

  function Marked(call: Call, order: nat, now: nat): Call {
    call.(marked := Some(Instant(order, now)), pc := Trying)
  }

  lemma MarkFillsCache(calls: seq<Call>, cache: TtlCache.Cache, ttl: nat, order: nat, now: nat, i: nat)
    requires HistoryInv(calls, cache, ttl, order, now)
    requires i < |calls| && calls[i].pc.Marking?
    ensures var moved, stored := calls[i := Marked(calls[i], order, now)], TtlCache.MarkAt(cache, calls[i].key, now);
            CacheFromMarks(moved, stored) && MarksRemembered(moved, stored, ttl, now)
  {
    var moved, stored := calls[i := Marked(calls[i], order, now)], TtlCache.MarkAt(cache, calls[i].key, now);
    assert CallInv(calls[i], order, now);
    forall key | key in stored
      ensures exists k :: 0 <= k < |moved| && MarkedWith(moved[k], key, stored[key])
    {
      if key == calls[i].key {
        assert MarkedWith(moved[i], key, stored[key]);
      } else {
        var k :| 0 <= k < |calls| && MarkedWith(calls[k], key, cache[key]);
        assert MarkedWith(moved[k], key, stored[key]);
      }
    }
    forall k | 0 <= k < |moved|
      ensures Remembered(moved[k], stored, ttl, now)
    {
      assert Remembered(calls[k], cache, ttl, now);
      assert CallInv(calls[k], order, now);
    }
  }

  lemma MarkKeepsChecks(calls: seq<Call>, cache: TtlCache.Cache, ttl: nat, order: nat, now: nat, i: nat)
    requires HistoryInv(calls, cache, ttl, order, now)
    requires i < |calls| && calls[i].pc.Marking?
    ensures var moved := calls[i := Marked(calls[i], order, now)];
            AllSeparated(moved, ttl) && RejectionsJustified(moved)
  {
    var moved := calls[i := Marked(calls[i], order, now)];
    assert CallInv(calls[i], order, now);
    forall a, b | 0 <= a < |moved| && 0 <= b < |moved|
      ensures Separated(moved[a], moved[b], ttl)
    {
      assert Separated(calls[a], calls[b], ttl);
      assert CallInv(calls[b], order, now);
    }
    forall j | 0 <= j < |moved| && moved[j].Rejected()
      ensures exists k :: 0 <= k < |moved| && MarkedEarlier(moved[k], moved[j])
    {
      var k :| 0 <= k < |calls| && MarkedEarlier(calls[k], calls[j]);
      assert MarkedEarlier(moved[k], moved[j]);
    }
  }

  lemma MarkKeepsInv(calls: seq<Call>, cache: TtlCache.Cache, ttl: nat, order: nat, now: nat, i: nat)
    requires HistoryInv(calls, cache, ttl, order, now)
    requires i < |calls| && calls[i].pc.Marking?
    ensures HistoryInv(calls[i := Marked(calls[i], order, now)],
                       TtlCache.MarkAt(cache, calls[i].key, now), ttl, order + 1, now)
  {
    assert CallInv(calls[i], order, now);
    CallsInvReplace(calls, order, now, i, Marked(calls[i], order, now), order + 1);
    MarkFillsCache(calls, cache, ttl, order, now, i);
    MarkKeepsChecks(calls, cache, ttl, order, now, i);
  }

  // ----- a new call, the clock, a sweep

  lemma StartKeepsInv(calls: seq<Call>, cache: TtlCache.Cache, ttl: nat, order: nat, now: nat, e: Event)
    requires HistoryInv(calls, cache, ttl, order, now)
    ensures HistoryInv(calls + [Call(e, e.DeduplicationKey(), Checking, order, None, None, None)],
                       cache, ttl, order + 1, now)
  {
    var call := Call(e, e.DeduplicationKey(), Checking, order, None, None, None);
    var more := calls + [call];
    assert CallInv(call, order + 1, now);
    forall k | 0 <= k < |more|
      ensures CallInv(more[k], order + 1, now)
    {
      if k < |calls| {
        CallInvLater(calls[k], order, now, order + 1, now);
      }
    }
    CacheFrame(calls, more, cache, ttl, now);
    ChecksFrame(calls, more, ttl);
  }

  lemma BackgroundKeepsInv(calls: seq<Call>, cache: TtlCache.Cache, ttl: nat, order: nat, now: nat,
                           cache': TtlCache.Cache, now': nat)
    requires HistoryInv(calls, cache, ttl, order, now) && now <= now'
    requires cache' == cache || cache' == TtlCache.Swept(cache, ttl, now)
    ensures HistoryInv(calls, cache', ttl, order + 1, now')
  {
    forall i | 0 <= i < |calls|
      ensures Remembered(calls[i], cache', ttl, now')
      ensures CallInv(calls[i], order + 1, now')
    {
      assert Remembered(calls[i], cache, ttl, now);
      CallInvLater(calls[i], order, now, order + 1, now');
    }
    assert CacheFromMarks(calls, cache');
  }

  // ----- every step, every run

  predicate Background(a: Action) {
    !Move(a) && !a.Check? && !a.Mark? && !a.Start?
  }

  lemma BackgroundFrame(c: Config, s: State, a: Action)
    requires c.dedup.Memory? && Enabled(c, s, a) && Background(a)
    ensures var t := Next(c, s, a);
            && t.calls == s.calls && t.order == s.order + 1 && t.now >= s.now
            && (t.cache == s.cache || t.cache == TtlCache.Swept(s.cache, c.dedup.ttl, s.now))
  {
  }

  lemma MoveStep(c: Config, s: State, a: Action)
    requires c.dedup.Memory? && DedupInv(c, s) && Enabled(c, s, a) && Move(a)
    ensures DedupInv(c, Next(c, s, a))
  {
    var t := Next(c, s, a);
    MoveFrame(c, s, a);
    assert CallInv(s.calls[a.call], s.order, s.now);
    hide Enabled, Next;
    MovedCallInv(s.calls[a.call], t.calls[a.call], s.order, s.now);
    MoveKeepsInv(s.calls, s.cache, c.dedup.ttl, s.order, s.now, a.call, t.calls[a.call]);
  }

  lemma CheckStep(c: Config, s: State, i: nat, answer: Answer)
    requires c.dedup.Memory? && DedupInv(c, s) && Enabled(c, s, Check(i, answer))
    ensures DedupInv(c, Next(c, s, Check(i, answer)))
  {
    CheckKeepsInv(s.calls, s.cache, c.dedup.ttl, s.order, s.now, i, answer);
    hide HistoryInv;
  }

  lemma MarkStep(c: Config, s: State, i: nat, ok: bool)
    requires c.dedup.Memory? && DedupInv(c, s) && Enabled(c, s, Mark(i, ok))
    ensures DedupInv(c, Next(c, s, Mark(i, ok)))
  {
    MarkKeepsInv(s.calls, s.cache, c.dedup.ttl, s.order, s.now, i);
    hide HistoryInv;
  }

  lemma StartStep(c: Config, s: State, e: Event)
    requires c.dedup.Memory? && DedupInv(c, s)
    ensures DedupInv(c, Next(c, s, Start(e)))
  {
    StartKeepsInv(s.calls, s.cache, c.dedup.ttl, s.order, s.now, e);
    hide HistoryInv;
  }

  lemma BackgroundStep(c: Config, s: State, a: Action)
    requires c.dedup.Memory? && DedupInv(c, s) && Enabled(c, s, a) && Background(a)
    ensures DedupInv(c, Next(c, s, a))
  {
    var t := Next(c, s, a);
    BackgroundFrame(c, s, a);
    hide Enabled, Next;
    BackgroundKeepsInv(s.calls, s.cache, c.dedup.ttl, s.order, s.now, t.cache, t.now);
  }

  lemma StepKeepsDedup(c: Config, s: State, a: Action)
    requires c.dedup.Memory? && DedupInv(c, s) && Enabled(c, s, a)
    ensures DedupInv(c, Next(c, s, a))
  {
    hide Enabled, Next, DedupInv;
    match a
    case Check(i, answer) => CheckStep(c, s, i, answer);
    case Mark(i, ok) => MarkStep(c, s, i, ok);
    case Start(e) => StartStep(c, s, e);
    case _ =>
      if Move(a) {
        MoveStep(c, s, a);
      } else {
        BackgroundStep(c, s, a);
      }
  }

  lemma {:induction false} RunKeepsDedup(c: Config, run: seq<Action>)
    requires c.dedup.Memory? && RunFrom(c, Init(c), run).Some?
    ensures DedupInv(c, RunFrom(c, Init(c), run).value)
  {
    if run != [] {
      hide DedupInv;
      var front := run[..|run| - 1];
      RunKeepsDedup(c, front);
      StepKeepsDedup(c, RunFrom(c, Init(c), front).value, run[|run| - 1]);
    }
  }

  lemma ReachableDedup(c: Config, s: State)
    requires c.dedup.Memory? && Reachable(c, s)
    ensures DedupInv(c, s)
  {
    var run :| RunFrom(c, Init(c), run) == Some(s);
    RunKeepsDedup(c, run);
  }

  // ----- what deduplication guarantees

  predicate SameKey(i: Call, j: Call) {
    i.event.DeduplicationKey() == j.event.DeduplicationKey()
  }

  /** If two calls with the same key both reach the send, the one that marked later ran its
      check before the other's mark, or more than the window after it. */
  lemma DuplicatesNeedOverlapOrExpiry(c: Config, s: State, i: nat, j: nat)
    requires c.dedup.Memory? && Reachable(c, s)
    requires i < |s.calls| && j < |s.calls| && SameKey(s.calls[i], s.calls[j])
    requires s.calls[i].ReachedSend() && s.calls[j].ReachedSend()
    ensures var a, b := s.calls[i], s.calls[j];
            && a.marked.Some? && b.marked.Some? && b.checked.Some?
            && (a.marked.value.order < b.marked.value.order ==>
                  || b.checked.value.order <= a.marked.value.order
                  || b.checked.value.time > a.marked.value.time + c.dedup.ttl)
  {
    ReachableDedup(c, s);
    assert CallInv(s.calls[i], s.order, s.now) && CallInv(s.calls[j], s.order, s.now);
    assert Separated(s.calls[i], s.calls[j], c.dedup.ttl);
  }

  /** Calls that do not overlap: two sends of one key have marks more than the window apart. */
  lemma SequentialDuplicatesAreSeparated(c: Config, s: State, i: nat, j: nat)
    requires c.dedup.Memory? && Reachable(c, s)
    requires i < |s.calls| && j < |s.calls| && SameKey(s.calls[i], s.calls[j])
    requires s.calls[i].ReachedSend() && s.calls[j].ReachedSend()
    requires s.calls[i].ended.Some? && s.calls[i].ended.value < s.calls[j].started
    ensures s.calls[i].marked.Some? && s.calls[j].marked.Some?
    ensures s.calls[j].marked.value.time > s.calls[i].marked.value.time + c.dedup.ttl
  {
    ReachableDedup(c, s);
    assert CallInv(s.calls[i], s.order, s.now) && CallInv(s.calls[j], s.order, s.now);
    assert Separated(s.calls[i], s.calls[j], c.dedup.ttl);
  }

  /** Every rejected call has an earlier call with its key that marked it before the check
      and that was not itself rejected: it was sent, is blocked, or was lost to a shutdown. */
  lemma RejectionsHaveAnOriginal(c: Config, s: State, j: nat)
    requires c.dedup.Memory? && Reachable(c, s)
    requires j < |s.calls| && s.calls[j].Rejected()
    ensures exists i :: 0 <= i < |s.calls| && i != j && SameKey(s.calls[i], s.calls[j])
              && MarkedEarlier(s.calls[i], s.calls[j]) && s.calls[i].ReachedSend()
  {
    ReachableDedup(c, s);
    var i :| 0 <= i < |s.calls| && MarkedEarlier(s.calls[i], s.calls[j]);
    assert CallInv(s.calls[i], s.order, s.now) && CallInv(s.calls[j], s.order, s.now);
  }

  /** When no event hides a separator in its namespace, user id and event id, what is rejected is a
      true duplicate: an earlier call carried an event of the same kind that agrees with it on
      these fields and on the timestamp or session id. */
  lemma RejectedEventsAreTrueDuplicates(c: Config, s: State, j: nat)
    requires c.dedup.Memory? && Reachable(c, s)
    requires j < |s.calls| && s.calls[j].Rejected()
    requires forall i :: 0 <= i < |s.calls| ==> Unambiguous(s.calls[i].event)
    ensures exists i :: 0 <= i < |s.calls| && i != j && s.calls[i].ReachedSend()
              && MarkedEarlier(s.calls[i], s.calls[j])
              && SameFields(s.calls[i].event, s.calls[j].event)
  {
    RejectionsHaveAnOriginal(c, s, j);
    var i :| 0 <= i < |s.calls| && i != j && SameKey(s.calls[i], s.calls[j])
             && MarkedEarlier(s.calls[i], s.calls[j]) && s.calls[i].ReachedSend();
    KeysAgreeExactlyOnFields(s.calls[i].event, s.calls[j].event);
  }

  /** A repeat that checks after a mark and within its window is rejected. */
  lemma RepeatsWithinTheWindowAreRejected(c: Config, s: State, i: nat, j: nat)
    requires c.dedup.Memory? && Reachable(c, s)
    requires i < |s.calls| && j < |s.calls| && MarkedEarlier(s.calls[i], s.calls[j])
    requires s.calls[j].checked.value.time <= s.calls[i].marked.value.time + c.dedup.ttl
    ensures s.calls[j].Rejected()
  {
    ReachableDedup(c, s);
    assert Separated(s.calls[i], s.calls[j], c.dedup.ttl);
  }
}
