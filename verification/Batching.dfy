/** The batcher as a value: the pending events, the timer that will flush them, and
    the runtime's timers and timer callbacks. The batcher class and the concurrent
    pipeline both move through the functions defined here. */
module Batching {
  import opened Wrappers
  import opened Sequences
  import opened Events

  /** `timer` is the batcher's own field. `armed` holds the timers the runtime has not
      fired yet, `fired` those whose callback goroutine still has to take the lock; both
      map a timer to its deadline. `addedAt` says when each pending event was added. */
  datatype Buffer = Buffer(
    pending: seq<Event>, addedAt: seq<nat>, timer: Option<nat>,
    armed: map<nat, nat>, fired: map<nat, nat>, nextTimer: nat)

  const EMPTY_BUFFER := Buffer([], [], None, map[], map[], 0)

  /** The effective batch size: a configured size of 0 behaves like 1. */
  function AtLeastOne(maxSize: nat): nat {
    if maxSize == 0 then 1 else maxSize
  }

  /** Append one event; the first event of a batch starts the timer. */
  function Append(b: Buffer, e: Event, now: nat, maxWait: nat): Buffer {
    var added := b.(pending := b.pending + [e], addedAt := b.addedAt + [now]);
    if |added.pending| == 1
    then added.(timer := Some(b.nextTimer),
                armed := b.armed[b.nextTimer := now + maxWait],
                nextTimer := b.nextTimer + 1)
    else added
  }

  /** Empty the buffer for a flush. Stopping the timer recalls it only while it is armed. */
  function Detach(b: Buffer): Buffer {
    b.(pending := [], addedAt := [], timer := None,
       armed := if b.timer.Some? then b.armed - {b.timer.value} else b.armed)
  }

  /** The runtime fires an armed timer: its callback now waits for the lock. */
  function FireTimer(b: Buffer, id: nat): Buffer
    requires id in b.armed
  {
    b.(armed := b.armed - {id}, fired := b.fired[id := b.armed[id]])
  }

  /** A waiting callback gets the lock. */
  function TakeCallback(b: Buffer, id: nat): Buffer {
    b.(fired := b.fired - {id})
  }

  /** The deadline of a timer that is armed or whose callback waits. */
  function Deadline(b: Buffer, id: nat): nat
    requires id in b.armed || id in b.fired
  {
    if id in b.armed then b.armed[id] else b.fired[id]
  }

  ghost predicate StampsInOrder(stamps: seq<nat>, now: nat) {
    && (forall i :: 0 <= i < |stamps| ==> stamps[i] <= now)
    && (forall i, j :: 0 <= i < j < |stamps| ==> stamps[i] <= stamps[j])
  }

  /** Events are pending exactly when there is a timer. That timer is armed, or its
      callback waits, or its callback is the one `running` under the lock; and it was
      due `maxWait` after the oldest pending event. No other timer is armed. */
  ghost predicate TimerInv(b: Buffer, maxWait: nat, now: nat, running: Option<nat>) {
    && |b.addedAt| == |b.pending|
    && StampsInOrder(b.addedAt, now)
    && (b.pending == [] <==> b.timer.None?)
    && (forall id :: id in b.armed ==> b.timer == Some(id) && id !in b.fired)
    && (forall id :: id in b.armed || id in b.fired ==> id < b.nextTimer)
    && (forall id :: id in b.fired ==> b.fired[id] <= now)
    && (b.timer.Some? ==>
          var id := b.timer.value;
          && (id in b.armed || id in b.fired || running == Some(id))
          && (id in b.armed || id in b.fired ==> Deadline(b, id) == b.addedAt[0] + maxWait))
  }

  lemma AppendKeepsTimerInv(b: Buffer, e: Event, now: nat, maxWait: nat)
    requires TimerInv(b, maxWait, now, None)
    ensures TimerInv(Append(b, e, now, maxWait), maxWait, now, None)
  {
  }

  lemma DetachKeepsTimerInv(b: Buffer, maxWait: nat, now: nat, running: Option<nat>)
    requires TimerInv(b, maxWait, now, running)
    ensures TimerInv(Detach(b), maxWait, now, None)
    ensures Detach(b).armed == map[]
  {
  }

  lemma TimerInvLater(b: Buffer, maxWait: nat, now: nat, later: nat, running: Option<nat>)
    requires TimerInv(b, maxWait, now, running) && now <= later
    ensures TimerInv(b, maxWait, later, running)
  {
  }

  lemma IdleKeepsTimerInv(b: Buffer, maxWait: nat, now: nat, running: Option<nat>)
    requires TimerInv(b, maxWait, now, running) && b.pending == []
    ensures TimerInv(b, maxWait, now, None)
  {
  }

  lemma FireKeepsTimerInv(b: Buffer, id: nat, maxWait: nat, now: nat, running: Option<nat>)
    requires TimerInv(b, maxWait, now, running)
    requires id in b.armed && b.armed[id] <= now
    ensures TimerInv(FireTimer(b, id), maxWait, now, running)
  {
  }

  lemma TakeKeepsTimerInv(b: Buffer, id: nat, maxWait: nat, now: nat)
    requires TimerInv(b, maxWait, now, None)
    requires id in b.fired
    ensures TimerInv(TakeCallback(b, id), maxWait, now, Some(id))
  {
  }

  // ----- the batcher on its own: one goroutine after another

  /** The buffer and the batches handed to the flush function so far. */
  datatype BatcherState = BatcherState(buffer: Buffer, flushed: seq<seq<Event>>)

  datatype Op = Add(event: Event, now: nat) | Flush | Fire(id: nat, now: nat) | Timeout(id: nat)

  function FlushNow(v: BatcherState): BatcherState {
    if v.buffer.pending == [] then v
    else BatcherState(Detach(v.buffer), v.flushed + [v.buffer.pending])
  }

  function AddEvent(v: BatcherState, e: Event, now: nat, maxSize: nat, maxWait: nat): BatcherState {
    var added := v.(buffer := Append(v.buffer, e, now, maxWait));
    if |added.buffer.pending| >= maxSize then FlushNow(added) else added
  }

  function TimeoutNow(v: BatcherState, id: nat): BatcherState {
    FlushNow(v.(buffer := TakeCallback(v.buffer, id)))
  }

  predicate Possible(v: BatcherState, op: Op) {
    match op
    case Add(_, _) => true
    case Flush => true
    case Fire(id, now) => id in v.buffer.armed && v.buffer.armed[id] <= now
    case Timeout(id) => id in v.buffer.fired
  }

  function Apply(v: BatcherState, op: Op, maxSize: nat, maxWait: nat): BatcherState
    requires Possible(v, op)
  {
    match op
    case Add(e, now) => AddEvent(v, e, now, maxSize, maxWait)
    case Flush => FlushNow(v)
    case Fire(id, _) => v.(buffer := FireTimer(v.buffer, id))
    case Timeout(id) => TimeoutNow(v, id)
  }

  /** The state after `ops`, if each of them was possible when it was tried. */
  function RunOps(ops: seq<Op>, maxSize: nat, maxWait: nat): Option<BatcherState> {
    if ops == [] then Some(BatcherState(EMPTY_BUFFER, []))
    else
      match RunOps(ops[..|ops| - 1], maxSize, maxWait)
      case None => None
      case Some(v) =>
        var op := ops[|ops| - 1];
        if Possible(v, op) then Some(Apply(v, op, maxSize, maxWait)) else None
  }

  /** The events added by `ops`, in order. */
  function Added(ops: seq<Op>): seq<Event> {
    if ops == [] then []
    else
      Added(ops[..|ops| - 1]) + match ops[|ops| - 1] case Add(e, _) => [e] case _ => []
  }

  ghost predicate BatchSizes(flushed: seq<seq<Event>>, maxSize: nat) {
    forall i :: 0 <= i < |flushed| ==> 1 <= |flushed[i]| <= AtLeastOne(maxSize)
  }

  /** The chunking law of one state: `added` is everything added so far. */
  ghost predicate Chunked(v: BatcherState, added: seq<Event>, maxSize: nat) {
    && Flat(v.flushed) + v.buffer.pending == added
    && BatchSizes(v.flushed, maxSize)
    && |v.buffer.pending| < AtLeastOne(maxSize)
  }

  lemma FlushKeepsChunked(v: BatcherState, added: seq<Event>, maxSize: nat)
    requires Flat(v.flushed) + v.buffer.pending == added
    requires BatchSizes(v.flushed, maxSize)
    requires |v.buffer.pending| <= AtLeastOne(maxSize)
    ensures Chunked(FlushNow(v), added, maxSize)
  {
    hide Flat;
    if v.buffer.pending != [] {
      FlatAppend(v.flushed, v.buffer.pending);
      assert Flat(v.flushed + [v.buffer.pending]) == added;
      assert added + [] == added;
    }
  }

  lemma AddKeepsChunked(v: BatcherState, e: Event, now: nat, added: seq<Event>, maxSize: nat, maxWait: nat)
    requires Chunked(v, added, maxSize)
    ensures Chunked(AddEvent(v, e, now, maxSize, maxWait), added + [e], maxSize)
  {
    var appended := v.(buffer := Append(v.buffer, e, now, maxWait));
    assert Flat(v.flushed) + (v.buffer.pending + [e]) == added + [e];
    if |appended.buffer.pending| >= maxSize {
      FlushKeepsChunked(appended, added + [e], maxSize);
    }
  }

  /** What each operation does to the batches, in plain terms: an add appends and cuts off a
      batch when that makes it full, a flush or a timeout cuts off whatever is pending, and the
      firing of a timer moves nothing but the timer. */
  lemma OpCuts(v: BatcherState, op: Op, maxSize: nat, maxWait: nat)
    requires Possible(v, op)
    ensures var t, pending := Apply(v, op, maxSize, maxWait), v.buffer.pending;
            && (op.Add? && |pending| + 1 < maxSize ==>
                  t.buffer.pending == pending + [op.event] && t.flushed == v.flushed)
            && (op.Add? && |pending| + 1 >= maxSize ==>
                  t.buffer.pending == [] && t.flushed == v.flushed + [pending + [op.event]])
            && (op.Flush? || op.Timeout? ==>
                  && t.buffer.pending == []
                  && t.flushed == if pending == [] then v.flushed else v.flushed + [pending])
            && (op.Fire? ==> t.buffer.pending == pending && t.flushed == v.flushed)
  {
  }

  /** What each operation does to the timers. An add starts the timer of a new batch; cutting off a
      batch recalls the batch's timer unless it has fired, and no other; a callback that has
      fired waits until its own timeout. */
  lemma OpTimers(v: BatcherState, op: Op, maxSize: nat, maxWait: nat, clock: nat)
    requires Possible(v, op) && TimerInv(v.buffer, maxWait, clock, None)
    ensures var t, b := Apply(v, op, maxSize, maxWait).buffer, v.buffer;
            && (!op.Fire? && t.pending == [] ==> t.timer.None? && t.armed == map[])
            && (op.Add? && t.pending != [] && b.pending == [] ==>
                  t.timer == Some(b.nextTimer) && t.armed == map[b.nextTimer := op.now + maxWait])
            && (op.Add? && t.pending != [] && b.pending != [] ==> t.timer == b.timer && t.armed == b.armed)
            && (op.Fire? ==> t.fired == b.fired[op.id := b.armed[op.id]] && t.armed == b.armed - {op.id})
            && (!op.Fire? ==> t.fired == if op.Timeout? then b.fired - {op.id} else b.fired)
  {
  }

  /** Whatever the operations and the timers do, the batches followed by the pending
      events are the added events, no batch is empty or too long, and the buffer
      never holds a full batch. */
  lemma {:induction false} BatcherRefinesChunking(ops: seq<Op>, maxSize: nat, maxWait: nat)
    requires RunOps(ops, maxSize, maxWait).Some?
    ensures Chunked(RunOps(ops, maxSize, maxWait).value, Added(ops), maxSize)
  {
    if ops == [] {
      assert Flat<Event>([]) == [];
    } else {
      var front, op := ops[..|ops| - 1], ops[|ops| - 1];
      BatcherRefinesChunking(front, maxSize, maxWait);
      var v := RunOps(front, maxSize, maxWait).value;
      match op
      case Add(e, now) => AddKeepsChunked(v, e, now, Added(front), maxSize, maxWait);
      case Flush => FlushKeepsChunked(v, Added(front), maxSize);
      case Fire(_, _) =>
      case Timeout(id) => FlushKeepsChunked(v.(buffer := TakeCallback(v.buffer, id)), Added(front), maxSize);
    }
  }

  predicate Cuts(op: Op) {
    op.Flush? || op.Timeout?
  }

  /** Operation `k` is a flush or a timeout that cut off batch `i` of `flushed`: the events that
      were pending before it. */
  ghost predicate CutBy(ops: seq<Op>, k: nat, flushed: seq<seq<Event>>, i: nat, maxSize: nat, maxWait: nat) {
    && k < |ops| && Cuts(ops[k]) && i < |flushed|
    && var before := RunOps(ops[..k], maxSize, maxWait);
       before.Some? && before.value.flushed == flushed[..i] && before.value.buffer.pending == flushed[i]
  }

  lemma CutByLater(ops: seq<Op>, k: nat, flushed: seq<seq<Event>>, more: seq<seq<Event>>, i: nat,
                   maxSize: nat, maxWait: nat)
    requires ops != [] && CutBy(ops[..|ops| - 1], k, flushed, i, maxSize, maxWait) && flushed <= more
    ensures CutBy(ops, k, more, i, maxSize, maxWait)
  {
    assert ops[..|ops| - 1][..k] == ops[..k];
    assert more[..i] == flushed[..i];
  }

  /** Nothing but a flush or a timeout cuts off a batch that is not full: each batch has exactly
      the batch size, or is what was pending before such an operation. */
  lemma {:induction false} ShortBatchesAreCut(ops: seq<Op>, maxSize: nat, maxWait: nat, i: nat)
    requires RunOps(ops, maxSize, maxWait).Some? && i < |RunOps(ops, maxSize, maxWait).value.flushed|
    ensures var flushed := RunOps(ops, maxSize, maxWait).value.flushed;
            |flushed[i]| == AtLeastOne(maxSize) || exists k :: CutBy(ops, k, flushed, i, maxSize, maxWait)
  {
    if ops != [] {
      var n := |ops| - 1;
      var v, w := RunOps(ops[..n], maxSize, maxWait).value, RunOps(ops, maxSize, maxWait).value;
      BatcherRefinesChunking(ops[..n], maxSize, maxWait);
      OpCuts(v, ops[n], maxSize, maxWait);
      hide RunOps, Apply, Chunked;
      if i < |v.flushed| {
        ShortBatchesAreCut(ops[..n], maxSize, maxWait, i);
        if |v.flushed[i]| != AtLeastOne(maxSize) {
          var k :| CutBy(ops[..n], k, v.flushed, i, maxSize, maxWait);
          CutByLater(ops, k, v.flushed, w.flushed, i, maxSize, maxWait);
        }
      } else if Cuts(ops[n]) {
        assert CutBy(ops, n, w.flushed, i, maxSize, maxWait);
      }
    }
  }

  ghost predicate OnlyAdds(ops: seq<Op>) {
    forall i :: 0 <= i < |ops| ==> ops[i].Add?
  }

  lemma DivModUnique(n: nat, d: nat, q: nat, r: nat)
    requires r < d && n == d * q + r
    ensures n / d == q && n % d == r
  {
    var p, s := n / d, n % d;
    assert n == d * p + s;
    assert p < q ==> d * (p + 1) <= d * q;
    assert q < p ==> d * (q + 1) <= d * p;
  }

  lemma DivModStep(n: nat, d: nat)
    requires d >= 1
    ensures n % d + 1 < d ==> (n + 1) / d == n / d && (n + 1) % d == n % d + 1
    ensures n % d + 1 == d ==> (n + 1) / d == n / d + 1 && (n + 1) % d == 0
  {
    var q, r := n / d, n % d;
    assert n == d * q + r;
    if r + 1 < d {
      DivModUnique(n + 1, d, q, r + 1);
    } else {
      assert d * (q + 1) == d * q + d;
      DivModUnique(n + 1, d, q + 1, 0);
    }
  }

  /** Adds alone cut the events into full batches of exactly `maxSize`. */
  lemma {:induction false} AddsAloneChunkExactly(ops: seq<Op>, maxSize: nat, maxWait: nat)
    requires OnlyAdds(ops) && maxSize >= 1
    ensures RunOps(ops, maxSize, maxWait).Some?
    ensures var v := RunOps(ops, maxSize, maxWait).value;
            && |v.flushed| == |ops| / maxSize
            && |v.buffer.pending| == |ops| % maxSize
            && (forall i :: 0 <= i < |v.flushed| ==> |v.flushed[i]| == maxSize)
  {
    if ops == [] {
      assert 0 / maxSize == 0 && 0 % maxSize == 0;
    } else {
      var front := ops[..|ops| - 1];
      AddsAloneChunkExactly(front, maxSize, maxWait);
      DivModStep(|front|, maxSize);
    }
  }

  lemma RunOpsAppend(ops: seq<Op>, op: Op, maxSize: nat, maxWait: nat)
    requires RunOps(ops, maxSize, maxWait).Some? && Possible(RunOps(ops, maxSize, maxWait).value, op)
    ensures RunOps(ops + [op], maxSize, maxWait)
         == Some(Apply(RunOps(ops, maxSize, maxWait).value, op, maxSize, maxWait))
  {
    assert (ops + [op])[..|ops|] == ops;
  }

  /** A timer fires just before its batch is flushed by size. */
  lemma FiredTooLate(a: Event, b: Event) returns (ops: seq<Op>, v: BatcherState)
    ensures RunOps(ops, 2, 10) == Some(v)
    ensures v == BatcherState(Buffer([], [], None, map[], map[0 := 10], 1), [[a, b]])
  {
    ops, v := [], BatcherState(EMPTY_BUFFER, []);
    RunOpsAppend(ops, Add(a, 0), 2, 10);
    ops, v := ops + [Add(a, 0)], Apply(v, Add(a, 0), 2, 10);
    assert v == BatcherState(Buffer([a], [0], Some(0), map[0 := 10], map[], 1), []);
    RunOpsAppend(ops, Fire(0, 10), 2, 10);
    ops, v := ops + [Fire(0, 10)], Apply(v, Fire(0, 10), 2, 10);
    assert v == BatcherState(Buffer([a], [0], Some(0), map[], map[0 := 10], 1), []);
    RunOpsAppend(ops, Add(b, 10), 2, 10);
    ops, v := ops + [Add(b, 10)], Apply(v, Add(b, 10), 2, 10);
    assert [a] + [b] == [a, b];
  }

  /** The deadline only bounds the wait from above: a callback that had fired before its batch
      was flushed by size flushes the next batch, although that batch's own timer is
      still armed and not due. */
  lemma StaleCallbackFlushesEarly(a: Event, b: Event, c: Event)
    ensures exists ops, v ::
              && RunOps(ops, 2, 10) == Some(v)
              && v.buffer.pending == [c] && v.buffer.timer == Some(1) && v.buffer.armed == map[1 := 20]
              && Possible(v, Timeout(0))
              && Apply(v, Timeout(0), 2, 10).flushed == [[a, b], [c]]
  {
    var ops, v := FiredTooLate(a, b);
    RunOpsAppend(ops, Add(c, 10), 2, 10);
    ops, v := ops + [Add(c, 10)], Apply(v, Add(c, 10), 2, 10);
    assert v == BatcherState(Buffer([c], [10], Some(1), map[1 := 20], map[0 := 10], 2), [[a, b]]);
    assert RunOps(ops, 2, 10) == Some(v);
  }
}
