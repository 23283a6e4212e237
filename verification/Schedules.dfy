/** What one worker does under a schedule: which operations of its batcher the turns of the
    schedule amount to, and which batches come of it. */
module Schedules {
  import opened Sequences
  import opened Events
  import opened Batching

  /** What happens next around a worker: an event arrives in the channel, the worker gets to its
      select, a timer's moment comes, or a callback gets its turn. */
  datatype Turn = Arrival(event: Event) | Reception(elapsed: nat) | Expiry(id: nat, elapsed: nat) | Callback(id: nat)

  /** The operations so far, what is queued, and the clock. */
  datatype Reading = Reading(ops: seq<Op>, queue: seq<Event>, now: nat)

  function IfPossible(ops: seq<Op>, op: Op, maxSize: nat, maxWait: nat): seq<Op> {
    match RunOps(ops, maxSize, maxWait)
    case None => ops
    case Some(v) => if Possible(v, op) then ops + [op] else ops
  }

  function Take(r: Reading, turn: Turn, maxSize: nat, maxWait: nat): Reading {
    match turn
    case Arrival(event) => r.(queue := r.queue + [event])
    case Reception(elapsed) =>
      if r.queue == [] then r.(now := r.now + elapsed)
      else Reading(r.ops + [Op.Add(r.queue[0], r.now + elapsed)], r.queue[1..], r.now + elapsed)
    case Expiry(id, elapsed) =>
      Reading(IfPossible(r.ops, Op.Fire(id, r.now + elapsed), maxSize, maxWait), r.queue, r.now + elapsed)
    case Callback(id) => r.(ops := IfPossible(r.ops, Op.Timeout(id), maxSize, maxWait))
  }

  /** Where a schedule leads that starts with `queue` in the channel. */
  function Read(schedule: seq<Turn>, queue: seq<Event>, maxSize: nat, maxWait: nat): Reading {
    if schedule == [] then Reading([], queue, 0)
    else Take(Read(schedule[..|schedule| - 1], queue, maxSize, maxWait), schedule[|schedule| - 1], maxSize, maxWait)
  }

  function Adds(events: seq<Event>, now: nat): seq<Op> {
    seq(|events|, k requires 0 <= k < |events| => Op.Add(events[k], now))
  }

  /** The whole life of a worker: the schedule, unless it is cancelled the rest of the channel,
      and the final flush. */
  function WorkerOps(schedule: seq<Turn>, cancelled: bool, queue: seq<Event>, maxSize: nat, maxWait: nat): seq<Op> {
    var r := Read(schedule, queue, maxSize, maxWait);
    r.ops + (if cancelled then [] else Adds(r.queue, r.now)) + [Op.Flush]
  }

  /** The batches a worker cuts. */
  function BatchesOf(schedule: seq<Turn>, cancelled: bool, queue: seq<Event>,
                     maxSize: nat, maxWait: nat): seq<seq<Event>>
  {
    match RunOps(WorkerOps(schedule, cancelled, queue, maxSize, maxWait), maxSize, maxWait)
    case None => []
    case Some(v) => v.flushed
  }

  /** The events that arrive, in order. */
  function Arrivals(schedule: seq<Turn>): seq<Event> {
    if schedule == [] then []
    else
      Arrivals(schedule[..|schedule| - 1])
      + if schedule[|schedule| - 1].Arrival? then [schedule[|schedule| - 1].event] else []
  }

  /** What is left in the channel: arrivals go to its end, and a reception takes its head. */
  function LeftAfter(schedule: seq<Turn>, queue: seq<Event>): seq<Event> {
    if schedule == [] then queue
    else
      var left := LeftAfter(schedule[..|schedule| - 1], queue);
      match schedule[|schedule| - 1]
      case Arrival(event) => left + [event]
      case Reception(_) => if left == [] then [] else left[1..]
      case _ => left
  }

  lemma {:induction false} ReadLeaves(schedule: seq<Turn>, queue: seq<Event>, maxSize: nat, maxWait: nat)
    ensures Read(schedule, queue, maxSize, maxWait).queue == LeftAfter(schedule, queue)
  {
    if schedule != [] {
      hide IfPossible;
      ReadLeaves(schedule[..|schedule| - 1], queue, maxSize, maxWait);
    }
  }

  lemma NothingRead(queue: seq<Event>, maxSize: nat, maxWait: nat)
    ensures Read([], queue, maxSize, maxWait) == Reading([], queue, 0)
  {
  }

  /** One more turn, as the loop of a worker takes it. */
  lemma ReadTurn(schedule: seq<Turn>, i: nat, queue: seq<Event>, maxSize: nat, maxWait: nat)
    requires i < |schedule|
    ensures Read(schedule[..i + 1], queue, maxSize, maxWait)
         == Take(Read(schedule[..i], queue, maxSize, maxWait), schedule[i], maxSize, maxWait)
  {
    assert schedule[..i + 1][..i] == schedule[..i];
  }

  lemma FirstAdd(ops: seq<Op>, events: seq<Event>, now: nat)
    requires events != []
    ensures ops + Adds(events, now) == (ops + [Op.Add(events[0], now)]) + Adds(events[1..], now)
  {
  }

  lemma AddedAppend(ops: seq<Op>, op: Op)
    ensures Added(ops + [op]) == if op.Add? then Added(ops) + [op.event] else Added(ops)
  {
    assert (ops + [op])[..|ops|] == ops;
    assert Added(ops) + [] == Added(ops);
  }

  lemma {:induction false} AddsAdd(ops: seq<Op>, events: seq<Event>, now: nat)
    ensures Added(ops + Adds(events, now)) == Added(ops) + events
  {
    if events == [] {
      assert ops + Adds(events, now) == ops && Added(ops) + events == Added(ops);
    } else {
      var front, last := events[..|events| - 1], events[|events| - 1];
      AddsAdd(ops, front, now);
      assert Adds(events, now) == Adds(front, now) + [Op.Add(last, now)];
      assert ops + Adds(events, now) == (ops + Adds(front, now)) + [Op.Add(last, now)];
      AddedAppend(ops + Adds(front, now), Op.Add(last, now));
      assert (Added(ops) + front) + [last] == Added(ops) + events;
    }
  }

  lemma IfPossibleRuns(ops: seq<Op>, op: Op, maxSize: nat, maxWait: nat)
    requires RunOps(ops, maxSize, maxWait).Some? && !op.Add?
    ensures RunOps(IfPossible(ops, op, maxSize, maxWait), maxSize, maxWait).Some?
    ensures Added(IfPossible(ops, op, maxSize, maxWait)) == Added(ops)
  {
    if Possible(RunOps(ops, maxSize, maxWait).value, op) {
      RunOpsAppend(ops, op, maxSize, maxWait);
      AddedAppend(ops, op);
    }
  }

  lemma AddRuns(ops: seq<Op>, e: Event, now: nat, maxSize: nat, maxWait: nat)
    requires RunOps(ops, maxSize, maxWait).Some?
    ensures RunOps(ops + [Op.Add(e, now)], maxSize, maxWait).Some?
    ensures Added(ops + [Op.Add(e, now)]) == Added(ops) + [e]
  {
    RunOpsAppend(ops, Op.Add(e, now), maxSize, maxWait);
    AddedAppend(ops, Op.Add(e, now));
  }

  /** What a turn adds to the batcher it takes from the queue, and an arrival adds to the queue. */
  lemma TakeMakesSense(r: Reading, turn: Turn, all: seq<Event>, maxSize: nat, maxWait: nat)
    requires RunOps(r.ops, maxSize, maxWait).Some? && Added(r.ops) + r.queue == all
    ensures var s := Take(r, turn, maxSize, maxWait);
            && RunOps(s.ops, maxSize, maxWait).Some?
            && Added(s.ops) + s.queue == all + if turn.Arrival? then [turn.event] else []
  {
    hide RunOps, IfPossible, Added;
    match turn
    case Arrival(event) => Associative(Added(r.ops), r.queue, [event]);
    case Reception(elapsed) =>
      if r.queue != [] {
        AddRuns(r.ops, r.queue[0], r.now + elapsed, maxSize, maxWait);
        HeadMoves(all, Added(r.ops), r.queue);
      }
    case Expiry(id, elapsed) => IfPossibleRuns(r.ops, Op.Fire(id, r.now + elapsed), maxSize, maxWait);
    case Callback(id) => IfPossibleRuns(r.ops, Op.Timeout(id), maxSize, maxWait);
  }

  /** Every schedule makes sense: its operations are possible, and they add the events that were
      there or arrived, in order, up to those still queued. */
  lemma {:induction false} ReadMakesSense(schedule: seq<Turn>, queue: seq<Event>, maxSize: nat, maxWait: nat)
    ensures var r := Read(schedule, queue, maxSize, maxWait);
            RunOps(r.ops, maxSize, maxWait).Some? && Added(r.ops) + r.queue == queue + Arrivals(schedule)
  {
    if schedule == [] {
      assert [] + queue == queue + [];
    } else {
      hide RunOps, Added, Take;
      var n := |schedule| - 1;
      var arrived := Arrivals(schedule[..n]);
      ReadMakesSense(schedule[..n], queue, maxSize, maxWait);
      TakeMakesSense(Read(schedule[..n], queue, maxSize, maxWait), schedule[n], queue + arrived, maxSize, maxWait);
      Associative(queue, arrived, if schedule[n].Arrival? then [schedule[n].event] else []);
    }
  }

  lemma {:induction false} AddsRun(ops: seq<Op>, events: seq<Event>, now: nat, maxSize: nat, maxWait: nat)
    requires RunOps(ops, maxSize, maxWait).Some?
    ensures RunOps(ops + Adds(events, now), maxSize, maxWait).Some?
    decreases |events|
  {
    if events == [] {
      assert ops + Adds(events, now) == ops;
    } else {
      AddRuns(ops, events[0], now, maxSize, maxWait);
      FirstAdd(ops, events, now);
      AddsRun(ops + [Op.Add(events[0], now)], events[1..], now, maxSize, maxWait);
    }
  }

  /** The state of the batcher when the final flush is due, and what has been added by then. */
  lemma BeforeTheEnd(schedule: seq<Turn>, cancelled: bool, queue: seq<Event>, maxSize: nat, maxWait: nat)
    ensures var r := Read(schedule, queue, maxSize, maxWait);
            var ops := WorkerOps(schedule, cancelled, queue, maxSize, maxWait);
            && ops != [] && ops[|ops| - 1] == Op.Flush
            && RunOps(ops[..|ops| - 1], maxSize, maxWait).Some? && RunOps(ops, maxSize, maxWait).Some?
            && Added(ops) + (if cancelled then r.queue else []) == queue + Arrivals(schedule)
  {
    ReadMakesSense(schedule, queue, maxSize, maxWait);
    hide Read, RunOps, Added;
    var r, ops := Read(schedule, queue, maxSize, maxWait), WorkerOps(schedule, cancelled, queue, maxSize, maxWait);
    var rest := if cancelled then [] else r.queue;
    assert ops == (r.ops + Adds(rest, r.now)) + [Op.Flush];
    AddsRun(r.ops, rest, r.now, maxSize, maxWait);
    AddsAdd(r.ops, rest, r.now);
    var before := r.ops + Adds(rest, r.now);
    assert ops[..|ops| - 1] == before;
    RunOpsAppend(before, Op.Flush, maxSize, maxWait);
    AddedAppend(before, Op.Flush);
  }

  /** The batches of a worker hold the events it received, in order; none is empty or too long,
      and nothing is left pending. */
  lemma BatchesHoldReceived(schedule: seq<Turn>, cancelled: bool, queue: seq<Event>, maxSize: nat, maxWait: nat)
    ensures var batches := BatchesOf(schedule, cancelled, queue, maxSize, maxWait);
            && Flat(batches) == Added(WorkerOps(schedule, cancelled, queue, maxSize, maxWait))
            && BatchSizes(batches, maxSize)
  {
    var ops := WorkerOps(schedule, cancelled, queue, maxSize, maxWait);
    BeforeTheEnd(schedule, cancelled, queue, maxSize, maxWait);
    BatcherRefinesChunking(ops, maxSize, maxWait);
    OpCuts(RunOps(ops[..|ops| - 1], maxSize, maxWait).value, Op.Flush, maxSize, maxWait);
    var v := RunOps(ops, maxSize, maxWait).value;
    assert Flat(v.flushed) + [] == Flat(v.flushed);
  }

  lemma LeftInChannel(schedule: seq<Turn>, cancelled: bool, queue: seq<Event>, left: seq<Event>,
                      maxSize: nat, maxWait: nat)
    requires left == if cancelled then Read(schedule, queue, maxSize, maxWait).queue else []
    ensures Added(WorkerOps(schedule, cancelled, queue, maxSize, maxWait)) + left == queue + Arrivals(schedule)
  {
    BeforeTheEnd(schedule, cancelled, queue, maxSize, maxWait);
  }

  // ----- what the turns do

  /** The batcher after a schedule. */
  function After(schedule: seq<Turn>, queue: seq<Event>, maxSize: nat, maxWait: nat): BatcherState {
    match RunOps(Read(schedule, queue, maxSize, maxWait).ops, maxSize, maxWait)
    case None => BatcherState(EMPTY_BUFFER, [])
    case Some(v) => v
  }

  /** A turn in plain terms. A reception takes the head of a queue that is not empty and adds it,
      which cuts off a batch only if that makes it full. A timer fires if it is armed and due.
      A callback that waits flushes all that is pending and is gone. An arrival only queues. */
  lemma TurnDoes(schedule: seq<Turn>, turn: Turn, queue: seq<Event>, maxSize: nat, maxWait: nat)
    ensures var r, s := Read(schedule, queue, maxSize, maxWait), Read(schedule + [turn], queue, maxSize, maxWait);
            var v, w := After(schedule, queue, maxSize, maxWait), After(schedule + [turn], queue, maxSize, maxWait);
            var pending := v.buffer.pending;
            && (turn.Arrival? ==> w == v && s.queue == r.queue + [turn.event] && s.now == r.now)
            && (turn.Reception? ==> s.now == r.now + turn.elapsed)
            && (turn.Reception? && r.queue == [] ==> w == v && s.queue == [])
            && (turn.Reception? && r.queue != [] ==>
                  && s.queue == r.queue[1..]
                  && (|pending| + 1 < maxSize ==>
                        w.buffer.pending == pending + [r.queue[0]] && w.flushed == v.flushed)
                  && (|pending| + 1 >= maxSize ==>
                        w.buffer.pending == [] && w.flushed == v.flushed + [pending + [r.queue[0]]]))
            && (turn.Expiry? ==>
                  && s.now == r.now + turn.elapsed && s.queue == r.queue
                  && w.buffer.pending == pending && w.flushed == v.flushed
                  && if turn.id in v.buffer.armed && v.buffer.armed[turn.id] <= s.now
                     then turn.id in w.buffer.fired && w.buffer.armed == v.buffer.armed - {turn.id}
                     else w == v)
            && (turn.Callback? ==>
                  && s.now == r.now && s.queue == r.queue
                  && turn.id !in w.buffer.fired
                  && (turn.id !in v.buffer.fired ==> w == v)
                  && (turn.id in v.buffer.fired ==>
                        && w.buffer.pending == []
                        && w.flushed == if pending == [] then v.flushed else v.flushed + [pending]))
  {
    var all, n := schedule + [turn], |schedule|;
    assert all[..n] == schedule && all[..n + 1] == all;
    ReadTurn(all, n, queue, maxSize, maxWait);
    ReadMakesSense(schedule, queue, maxSize, maxWait);
    hide Read;
    var r := Read(schedule, queue, maxSize, maxWait);
    var v := RunOps(r.ops, maxSize, maxWait).value;
    match turn
    case Arrival(_) =>
    case Reception(elapsed) =>
      if r.queue != [] {
        var op := Op.Add(r.queue[0], r.now + elapsed);
        RunOpsAppend(r.ops, op, maxSize, maxWait);
        OpCuts(v, op, maxSize, maxWait);
      }
    case Expiry(id, elapsed) =>
      var op := Op.Fire(id, r.now + elapsed);
      if Possible(v, op) {
        RunOpsAppend(r.ops, op, maxSize, maxWait);
      }
    case Callback(id) =>
      if Possible(v, Op.Timeout(id)) {
        RunOpsAppend(r.ops, Op.Timeout(id), maxSize, maxWait);
        OpCuts(v, Op.Timeout(id), maxSize, maxWait);
      }
  }

  // ----- without callbacks

  ghost predicate NoCallback(schedule: seq<Turn>) {
    forall i :: 0 <= i < |schedule| ==> !schedule[i].Callback?
  }

  ghost predicate NoCut(ops: seq<Op>) {
    forall k :: 0 <= k < |ops| ==> !Cuts(ops[k])
  }

  lemma {:induction false} NoCallbackNoCut(schedule: seq<Turn>, queue: seq<Event>, maxSize: nat, maxWait: nat)
    requires NoCallback(schedule)
    ensures NoCut(Read(schedule, queue, maxSize, maxWait).ops)
  {
    if schedule != [] {
      NoCallbackNoCut(schedule[..|schedule| - 1], queue, maxSize, maxWait);
    }
  }

  /** A worker whose callbacks never get a turn cuts full batches only, up to the last one, whatever
      arrives, is received and fires, and whether it is cancelled or not. */
  lemma OnlyTheLastBatchIsShort(schedule: seq<Turn>, cancelled: bool, queue: seq<Event>,
                                maxSize: nat, maxWait: nat, i: nat)
    requires NoCallback(schedule)
    requires i + 1 < |BatchesOf(schedule, cancelled, queue, maxSize, maxWait)|
    ensures |BatchesOf(schedule, cancelled, queue, maxSize, maxWait)[i]| == AtLeastOne(maxSize)
  {
    var ops := WorkerOps(schedule, cancelled, queue, maxSize, maxWait);
    var n := |ops| - 1;
    BeforeTheEnd(schedule, cancelled, queue, maxSize, maxWait);
    NoCallbackNoCut(schedule, queue, maxSize, maxWait);
    assert forall k :: 0 <= k < n ==> !Cuts(ops[k]);
    ShortBatchesAreCut(ops, maxSize, maxWait, i);
    var batches := RunOps(ops, maxSize, maxWait).value.flushed;
    if |batches[i]| != AtLeastOne(maxSize) {
      var k :| CutBy(ops, k, batches, i, maxSize, maxWait);
      assert k == n;
      OpCuts(RunOps(ops[..n], maxSize, maxWait).value, Op.Flush, maxSize, maxWait);
      assert false;
    }
  }
}
