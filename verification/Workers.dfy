/** One worker of the pipeline as a transition system: the worker goroutine, its batcher
    with the lock, the goroutines of a running flush, and the timer callbacks that
    race the worker for the lock. */
module Workers {
  import opened Wrappers
  import opened Sequences
  import opened Events
  import opened Batching
  import opened FanOut

  /** Batch size, flush interval, and the filters of the storage plugins. */
  datatype Settings = Settings(batchSize: nat, maxWait: nat, filters: seq<Event -> bool>)

  /** The worker goroutine: at its select, holding a received event, inside `Add` with the
      lock, on its way to the final flush, inside the final flush, or gone. */
  datatype Pc = Selecting | Holding(event: Event) | Adding | Closing | Flushing | Exited

  datatype Owner = Loop | Callback(id: nat)

  datatype Lock = Free | Held(owner: Owner)

  /** One plugin goroutine of a flush. */
  datatype WriterPc = Ready | Writing | Finished

  /** The flush that is running under the lock, if any. */
  datatype Flight = NoFlight | Flight(batch: seq<Event>, writers: seq<WriterPc>)

  /** `flushed` lists the batches processed in full; `writes[p]` lists the arguments of
      the `WriteBatch` calls this worker's flushes made on plugin `p`, and `returned[p]`
      counts those of them that have returned. */
  datatype Worker = Worker(
    pc: Pc, lock: Lock, buffer: Buffer, flight: Flight,
    flushed: seq<seq<Event>>, writes: seq<seq<seq<Event>>>, returned: seq<nat>)

  datatype Step =
    | AddEvent                       // Add: take the lock, append, start the timer
    | FinalFlush                     // Flush on the way out: take the lock
    | TakeLock(id: nat)              // a waiting timer callback takes the lock
    | Release                        // nothing to flush: release the lock
    | StartFlush                     // flush: stop the timer, copy and reset the buffer
    | StartWriter(plugin: nat)       // a plugin goroutine filters and calls WriteBatch
    | EndWriter(plugin: nat, count: int, failed: bool)  // WriteBatch returns
    | FinishFlush                    // all goroutines are done: count the batch, release
    | Fire(id: nat)                  // the runtime fires a timer that is due

  function InitialWorker(g: Settings): Worker {
    Worker(Selecting, Free, EMPTY_BUFFER, NoFlight, [], seq(|g.filters|, _ => []), seq(|g.filters|, _ => 0))
  }

  /** The lock holder is about to flush: `Add` only a full batch, the others any batch. */
  predicate MustFlush(g: Settings, w: Worker) {
    && w.lock.Held?
    && w.flight.NoFlight?
    && w.buffer.pending != []
    && (w.lock.owner.Loop? && w.pc.Adding? ==> |w.buffer.pending| >= g.batchSize)
  }

  predicate CanStep(g: Settings, w: Worker, step: Step, now: nat) {
    match step
    case AddEvent => w.pc.Holding? && w.lock.Free?
    case FinalFlush => w.pc.Closing? && w.lock.Free?
    case TakeLock(id) => id in w.buffer.fired && w.lock.Free?
    case Release => w.lock.Held? && w.flight.NoFlight? && !MustFlush(g, w)
    case StartFlush => MustFlush(g, w)
    case StartWriter(p) =>
      w.flight.Flight? && p < |g.filters| && p < |w.flight.writers| && w.flight.writers[p].Ready?
    case EndWriter(p, _, _) =>
      w.flight.Flight? && p < |w.flight.writers| && w.flight.writers[p].Writing?
    case FinishFlush =>
      w.lock.Held? && w.flight.Flight? && forall p :: 0 <= p < |w.flight.writers| ==> w.flight.writers[p].Finished?
    case Fire(id) => id in w.buffer.armed && w.buffer.armed[id] <= now
  }

  /** The record of the calls, with one more for plugin `p`. */
  function Record(writes: seq<seq<seq<Event>>>, p: nat, call: seq<seq<Event>>): seq<seq<seq<Event>>> {
    if p < |writes| then writes[p := writes[p] + call] else writes
  }

  function OneMore(counts: seq<nat>, p: nat): seq<nat> {
    if p < |counts| then counts[p := counts[p] + 1] else counts
  }

  /** Where the worker goroutine continues when the lock is released. */
  function AfterRelease(w: Worker): Pc
    requires w.lock.Held?
  {
    if w.lock.owner.Callback? then w.pc else if w.pc.Adding? then Selecting else Exited
  }

  function DoStep(g: Settings, w: Worker, step: Step, now: nat): Worker
    requires CanStep(g, w, step, now)
  {
    match step
    case AddEvent =>
      w.(pc := Adding, lock := Held(Loop), buffer := Append(w.buffer, w.pc.event, now, g.maxWait))
    case FinalFlush => w.(pc := Flushing, lock := Held(Loop))
    case TakeLock(id) => w.(lock := Held(Callback(id)), buffer := TakeCallback(w.buffer, id))
    case Release => w.(pc := AfterRelease(w), lock := Free)
    case StartFlush =>
      w.(buffer := Detach(w.buffer),
         flight := Flight(w.buffer.pending, seq(|g.filters|, _ => Ready)))
    case StartWriter(p) =>
      var call := CallFor(w.flight.batch, g.filters[p]);
      w.(writes := Record(w.writes, p, call),
         flight := w.flight.(writers := w.flight.writers[p := if call == [] then Finished else Writing]))
    case EndWriter(p, _, _) =>
      w.(returned := OneMore(w.returned, p),
         flight := w.flight.(writers := w.flight.writers[p := Finished]))
    case FinishFlush =>
      w.(pc := AfterRelease(w), lock := Free, flight := NoFlight, flushed := w.flushed + [w.flight.batch])
    case Fire(id) => w.(buffer := FireTimer(w.buffer, id))
  }

  // ----- where a worker's events are

  function Hand(w: Worker): seq<Event> {
    if w.pc.Holding? then [w.pc.event] else []
  }

  function InFlight(w: Worker): seq<Event> {
    if w.flight.Flight? then w.flight.batch else []
  }

  /** Everything the worker received, in order: processed, in flight, pending, in hand. */
  function Stream(w: Worker): seq<Event> {
    Flat(w.flushed) + InFlight(w) + w.buffer.pending + Hand(w)
  }

  function Completed(w: Worker): nat {
    |Flat(w.flushed)|
  }

  /** Events received but not counted as processed. */
  function Backlog(w: Worker): nat {
    |InFlight(w)| + |w.buffer.pending| + |Hand(w)|
  }

  lemma StreamLength(w: Worker)
    ensures |Stream(w)| == Completed(w) + Backlog(w)
  {
  }

  // ----- the local invariant

  ghost function Running(w: Worker): Option<nat> {
    if w.lock.Held? && w.lock.owner.Callback? then Some(w.lock.owner.id) else None
  }

  ghost predicate FlightInv(g: Settings, w: Worker) {
    w.flight.Flight? ==>
      && w.lock.Held?
      && w.buffer.pending == []
      && |w.flight.writers| == |g.filters|
      && 1 <= |w.flight.batch| <= AtLeastOne(g.batchSize)
      && (w.lock.owner.Callback? ==> |w.flight.batch| < AtLeastOne(g.batchSize))
      && (w.lock.owner.Loop? && w.pc.Adding? ==> |w.flight.batch| == AtLeastOne(g.batchSize))
  }

  ghost predicate SizeInv(g: Settings, w: Worker) {
    && |w.buffer.pending| <= AtLeastOne(g.batchSize)
    && (!w.pc.Adding? ==> |w.buffer.pending| < AtLeastOne(g.batchSize))
    && BatchSizes(w.flushed, g.batchSize)
  }

  /** The calls of plugin `p` are those for the processed batches, in order, and the
      one for the batch in flight if its goroutine has started. */
  ghost predicate WritesInv(g: Settings, w: Worker) {
    && |w.writes| == |g.filters|
    && (w.flight.Flight? ==> |w.flight.writers| == |g.filters|)
    && forall p :: 0 <= p < |g.filters| ==>
         w.writes[p] == CallsFor(w.flushed, g.filters[p])
                        + if w.flight.Flight? && !w.flight.writers[p].Ready?
                          then CallFor(w.flight.batch, g.filters[p]) else []
  }

  /** A call has returned, unless its goroutine is still in `WriteBatch`. */
  ghost predicate ReturnsInv(g: Settings, w: Worker) {
    && |w.returned| == |w.writes| == |g.filters|
    && (w.flight.Flight? ==> |w.flight.writers| == |g.filters|)
    && forall p :: 0 <= p < |g.filters| ==>
         |w.writes[p]| == w.returned[p] + if w.flight.Flight? && w.flight.writers[p].Writing? then 1 else 0
  }

  ghost predicate WorkerInv(g: Settings, w: Worker, now: nat) {
    && (w.lock == Held(Loop) <==> w.pc.Adding? || w.pc.Flushing?)
    && (w.pc.Exited? ==> w.buffer.pending == [] && w.flight.NoFlight?)
    && FlightInv(g, w)
    && SizeInv(g, w)
    && WritesInv(g, w)
    && ReturnsInv(g, w)
    && TimerInv(w.buffer, g.maxWait, now, Running(w))
  }

  lemma InitialWorkerInv(g: Settings)
    ensures WorkerInv(g, InitialWorker(g), 0)
    ensures Stream(InitialWorker(g)) == [] && Completed(InitialWorker(g)) == 0
  {
  }

  /** Time passing changes nothing for a worker. */
  lemma WorkerInvLater(g: Settings, w: Worker, now: nat, later: nat)
    requires WorkerInv(g, w, now) && now <= later
    ensures WorkerInv(g, w, later)
  {
  }

  /** Receiving an event, or deciding to leave, moves only the worker goroutine. */
  lemma LeaveSelect(g: Settings, w: Worker, pc: Pc, now: nat)
    requires WorkerInv(g, w, now) && w.pc.Selecting? && (pc.Holding? || pc.Closing?)
    ensures var v := w.(pc := pc);
            && WorkerInv(g, v, now)
            && Stream(v) == Stream(w) + Hand(v)
            && Completed(v) == Completed(w)
  {
  }

  lemma StepKeepsTimerInv(g: Settings, w: Worker, step: Step, now: nat)
    requires WorkerInv(g, w, now) && CanStep(g, w, step, now)
    ensures var v := DoStep(g, w, step, now); TimerInv(v.buffer, g.maxWait, now, Running(v))
  {
    match step
    case AddEvent => AppendKeepsTimerInv(w.buffer, w.pc.event, now, g.maxWait);
    case TakeLock(id) => TakeKeepsTimerInv(w.buffer, id, g.maxWait, now);
    case StartFlush => DetachKeepsTimerInv(w.buffer, g.maxWait, now, Running(w));
    case Fire(id) => FireKeepsTimerInv(w.buffer, id, g.maxWait, now, Running(w));
    case _ =>
  }

  lemma StepKeepsWritesInv(g: Settings, w: Worker, step: Step, now: nat)
    requires WorkerInv(g, w, now) && CanStep(g, w, step, now)
    ensures WritesInv(g, DoStep(g, w, step, now))
  {
    var v := DoStep(g, w, step, now);
    if step.FinishFlush? {
      forall p | 0 <= p < |g.filters|
        ensures v.writes[p] == CallsFor(v.flushed, g.filters[p])
      {
        CallsForAppend(w.flushed, w.flight.batch, g.filters[p]);
        assert !w.flight.writers[p].Ready?;
      }
    }
  }

  lemma StepKeepsReturnsInv(g: Settings, w: Worker, step: Step, now: nat)
    requires WorkerInv(g, w, now) && CanStep(g, w, step, now)
    ensures ReturnsInv(g, DoStep(g, w, step, now))
  {
    hide TimerInv, Filter, CallsFor;
  }

  lemma StepKeepsWorkerInv(g: Settings, w: Worker, step: Step, now: nat)
    requires WorkerInv(g, w, now) && CanStep(g, w, step, now)
    ensures WorkerInv(g, DoStep(g, w, step, now), now)
  {
    StepKeepsTimerInv(g, w, step, now);
    StepKeepsWritesInv(g, w, step, now);
    StepKeepsReturnsInv(g, w, step, now);
  }

  /** The three ways events move inside a worker, as facts about concatenation: from the hand
      to the buffer, from the buffer to a flush, and from a flush to the processed batches. */
  lemma EventsMove(done: seq<Event>, flying: seq<Event>, pending: seq<Event>, hand: seq<Event>)
    ensures done + flying + (pending + hand) + [] == done + flying + pending + hand
    ensures flying == [] ==> done + pending + [] + hand == done + flying + pending + hand
    ensures (done + flying) + [] + pending + hand == done + flying + pending + hand
  {
  }

  /** No local step loses, duplicates or reorders an event. */
  lemma StepKeepsStream(g: Settings, w: Worker, step: Step, now: nat)
    requires WorkerInv(g, w, now) && CanStep(g, w, step, now)
    ensures Stream(DoStep(g, w, step, now)) == Stream(w)
    ensures Completed(DoStep(g, w, step, now))
         == Completed(w) + if step.FinishFlush? then |w.flight.batch| else 0
  {
    EventsMove(Flat(w.flushed), InFlight(w), w.buffer.pending, Hand(w));
    match step
    case FinishFlush => FlatAppend(w.flushed, w.flight.batch);
    case AddEvent =>
    case StartFlush =>
    case Release =>
    case _ =>
  }

  /** A worker never owes more than one full batch, even while it holds an event
      and a timer callback is in the middle of a flush. */
  lemma BacklogBound(g: Settings, w: Worker, now: nat)
    requires WorkerInv(g, w, now)
    ensures Backlog(w) <= AtLeastOne(g.batchSize)
  {
  }

  /** A timer callback that gets the lock while events are pending flushes them. */
  lemma CallbackFlushes(g: Settings, w: Worker, id: nat, now: nat)
    requires WorkerInv(g, w, now) && CanStep(g, w, TakeLock(id), now) && w.buffer.pending != []
    ensures CanStep(g, DoStep(g, w, TakeLock(id), now), StartFlush, now)
  {
  }

  // ----- the work a worker still has to do

  function WriterWork(pc: WriterPc): nat {
    match pc case Ready => 2 case Writing => 1 case Finished => 0
  }

  /** What one pending event costs at most: a flush of its own. */
  function EventWork(plugins: nat): nat {
    2 * plugins + 2
  }

  /** `count` events at `each`, as a sum so that no product is left to reason about. */
  function Times(count: nat, each: nat): nat {
    if count == 0 then 0 else each + Times(count - 1, each)
  }

  function PcWork(pc: Pc, plugins: nat): nat {
    match pc
    case Selecting => 5
    case Holding(_) => EventWork(plugins) + 10
    case Adding => 5
    case Closing => 4
    case Flushing => 2
    case Exited => 0
  }

  function FlightWork(flight: Flight): nat {
    if flight.NoFlight? then 0 else 1 + Sum(flight.writers, WriterWork)
  }

  function Work(w: Worker): nat {
    PcWork(w.pc, |w.writes|)
    + (if w.lock.Held? then 1 else 0)
    + FlightWork(w.flight)
    + Times(|w.buffer.pending|, EventWork(|w.writes|))
    + 3 * |w.buffer.armed| + 2 * |w.buffer.fired|
  }

  lemma MapRemoveSize<K, V>(m: map<K, V>, k: K)
    requires k in m
    ensures |m - {k}| == |m| - 1
  {
    assert (m - {k}).Keys == m.Keys - {k};
    assert |(m - {k}).Keys| == |m.Keys| - 1;
  }

  lemma MapInsertSize<K, V>(m: map<K, V>, k: K, v: V)
    requires k !in m
    ensures |m[k := v]| == |m| + 1
  {
    assert m[k := v].Keys == m.Keys + {k};
    assert |m[k := v].Keys| == |m.Keys| + 1;
  }

  lemma {:induction false} FreshWritersWork(n: nat)
    ensures Sum(seq(n, _ => Ready), WriterWork) == 2 * n
  {
    if n > 0 {
      assert seq(n, _ => Ready)[..n - 1] == seq(n - 1, _ => Ready);
      FreshWritersWork(n - 1);
    }
  }

  lemma DetachDisarms(b: Buffer)
    ensures |Detach(b).armed| <= |b.armed|
  {
    if b.timer.Some? && b.timer.value in b.armed {
      MapRemoveSize(b.armed, b.timer.value);
    } else if b.timer.Some? {
      assert b.armed - {b.timer.value} == b.armed;
    }
  }

  lemma AddCostsWork(g: Settings, w: Worker, now: nat)
    requires WorkerInv(g, w, now) && CanStep(g, w, AddEvent, now)
    ensures Work(DoStep(g, w, AddEvent, now)) < Work(w)
  {
    var b := w.buffer;
    assert b.nextTimer !in b.armed;
    hide FlightInv, SizeInv, WritesInv, ReturnsInv, TimerInv;
    MapInsertSize(b.armed, b.nextTimer, now + g.maxWait);
  }

  lemma FlushCostsWork(g: Settings, w: Worker, now: nat)
    requires WorkerInv(g, w, now) && CanStep(g, w, StartFlush, now)
    ensures Work(DoStep(g, w, StartFlush, now)) < Work(w)
  {
    var b := w.buffer;
    FreshWritersWork(|g.filters|);
    DetachDisarms(b);
  }

  lemma WriterCostsWork(g: Settings, w: Worker, step: Step, now: nat)
    requires WorkerInv(g, w, now) && CanStep(g, w, step, now)
    requires step.StartWriter? || step.EndWriter?
    ensures Work(DoStep(g, w, step, now)) < Work(w)
  {
    var p, v := step.plugin, DoStep(g, w, step, now);
    SumUpdate(w.flight.writers, p, v.flight.writers[p], WriterWork);
  }

  lemma TimerCostsWork(g: Settings, w: Worker, step: Step, now: nat)
    requires WorkerInv(g, w, now) && CanStep(g, w, step, now)
    requires step.Fire? || step.TakeLock?
    ensures Work(DoStep(g, w, step, now)) < Work(w)
  {
    if step.Fire? {
      MapRemoveSize(w.buffer.armed, step.id);
      MapInsertSize(w.buffer.fired, step.id, w.buffer.armed[step.id]);
    } else {
      MapRemoveSize(w.buffer.fired, step.id);
    }
  }

  /** Every step of a worker, its flushes and its timers uses up work. */
  lemma StepCostsWork(g: Settings, w: Worker, step: Step, now: nat)
    requires WorkerInv(g, w, now) && CanStep(g, w, step, now)
    ensures Work(DoStep(g, w, step, now)) < Work(w)
  {
    match step
    case AddEvent => AddCostsWork(g, w, now);
    case StartFlush => FlushCostsWork(g, w, now);
    case StartWriter(_) => WriterCostsWork(g, w, step, now);
    case EndWriter(_, _, _) => WriterCostsWork(g, w, step, now);
    case TakeLock(_) => TimerCostsWork(g, w, step, now);
    case Fire(_) => TimerCostsWork(g, w, step, now);
    case FinalFlush =>
    case Release =>
    case FinishFlush =>
  }

  /** The step with which the current lock holder moves on; it needs no timer. */
  ghost function HolderStep(g: Settings, w: Worker): Step
    requires w.lock.Held?
  {
    if w.flight.NoFlight? then (if MustFlush(g, w) then StartFlush else Release)
    else if exists p :: 0 <= p < |w.flight.writers| && w.flight.writers[p].Ready? then
      var p: nat :| p < |w.flight.writers| && w.flight.writers[p].Ready?; StartWriter(p)
    else if exists p :: 0 <= p < |w.flight.writers| && w.flight.writers[p].Writing? then
      var p: nat :| p < |w.flight.writers| && w.flight.writers[p].Writing?; EndWriter(p, 0, true)
    else FinishFlush
  }

  /** Whoever holds the lock can move, provided each `WriteBatch` returns. */
  lemma HolderCanStep(g: Settings, w: Worker, now: nat)
    requires WorkerInv(g, w, now) && w.lock.Held?
    ensures CanStep(g, w, HolderStep(g, w), now)
  {
  }
}
