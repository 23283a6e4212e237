/** The processor's own methods: filtering for one plugin, fanning a batch out to all of
    them, and the loop of a worker. */
module ProcessorClass {
  import opened Wrappers
  import opened Sequences
  import opened Events
  import opened Batching
  import opened BatcherClass
  import opened FanOut
  import opened Schedules

  class Processor {
    const plugins: seq<Plugin>
    const batchSize: nat
    const flushInterval: nat
    /** What the channel holds. */
    var inputChan: seq<Event>
    var eventsProcessed: nat

    constructor (plugins: seq<Plugin>, batchSize: nat, flushInterval: nat)
      ensures this.plugins == plugins && this.batchSize == batchSize && this.flushInterval == flushInterval
      ensures inputChan == [] && eventsProcessed == 0
    {
      this.plugins := plugins;
      this.batchSize := batchSize;
      this.flushInterval := flushInterval;
      inputChan := [];
      eventsProcessed := 0;
    }

    /** How many of the goroutines `running` serve `plugin`. */
    ghost function ListedAmong(running: set<nat>, plugin: Plugin): nat {
      |set p | p in running && p < |plugins| && plugins[p] == plugin|
    }

    /** How often `plugin` is listed. */
    ghost function Listings(plugin: Plugin): nat {
      ListedAmong(UpTo(|plugins|), plugin)
    }

    lemma OneLess(running: set<nat>, p: nat, plugin: Plugin)
      requires p in running && p < |plugins|
      ensures ListedAmong(running - {p}, plugin)
           == ListedAmong(running, plugin) - if plugins[p] == plugin then 1 else 0
    {
      var before := set k | k in running && k < |plugins| && plugins[k] == plugin;
      var after := set k | k in running - {p} && k < |plugins| && plugins[k] == plugin;
      if plugins[p] == plugin {
        assert after == before - {p};
      } else {
        assert after == before;
      }
    }

    /** What `plugin` has got for `batch` when the goroutines `running` have not run. */
    ghost function CallsBut(running: set<nat>, plugin: Plugin, batch: seq<Event>): seq<seq<Event>> {
      var listed, left := Listings(plugin), ListedAmong(running, plugin);
      if left <= listed then Repeated(CallFor(batch, plugin.accepts), listed - left) else []
    }

    lemma OneMore(running: set<nat>, p: nat, plugin: Plugin, batch: seq<Event>)
      requires p in running && forall k :: k in running ==> k < |plugins|
      ensures CallsBut(running - {p}, plugin, batch)
           == CallsBut(running, plugin, batch)
              + if plugins[p] == plugin then CallFor(batch, plugin.accepts) else []
    {
      OneLess(running, p, plugin);
      SomeListed(running, plugin);
      hide CallFor;
    }

    lemma SomeListed(running: set<nat>, plugin: Plugin)
      requires forall k :: k in running ==> k < |plugins|
      ensures ListedAmong(running, plugin) <= Listings(plugin)
    {
      var all := UpTo(|plugins|);
      var part := set p | p in running && p < |plugins| && plugins[p] == plugin;
      var whole := set p | p in all && p < |plugins| && plugins[p] == plugin;
      assert part <= whole;
      Cardinality(part, whole);
    }

    lemma NoneRan(running: set<nat>, plugin: Plugin, batch: seq<Event>)
      requires forall p: nat :: p in running <==> p < |plugins|
      ensures CallsBut(running, plugin, batch) == []
    {
      assert running == UpTo(|plugins|);
    }

    lemma ListedAtMost(running: set<nat>, plugin: Plugin)
      ensures ListedAmong(running, plugin) <= |running|
    {
      var part := set p | p in running && p < |plugins| && plugins[p] == plugin;
      Cardinality(part, running);
    }

    lemma AllRan(plugin: Plugin, batch: seq<Event>)
      ensures CallsBut({}, plugin, batch) == Repeated(CallFor(batch, plugin.accepts), Listings(plugin))
    {
      ListedAtMost({}, plugin);
    }

    /** One goroutine: filter into a fresh slice, then write it unless it is empty. */
    method WriteToPlugin(plugin: Plugin, batch: seq<Event>)
      modifies plugin
      ensures plugin.calls == old(plugin.calls) + CallFor(batch, plugin.accepts)
    {
      var filtered := [];
      for i := 0 to |batch|
        invariant filtered == Filter(batch[..i], plugin.accepts)
        invariant plugin.calls == old(plugin.calls)
      {
        FilterAppend(batch[..i], batch[i], plugin.accepts);
        assert batch[..i + 1] == batch[..i] + [batch[i]];
        if plugin.accepts(batch[i]) {
          filtered := filtered + [batch[i]];
        }
      }
      assert batch[..|batch|] == batch;
      if |filtered| == 0 {
        return;
      }
      var count, failed := plugin.WriteBatch(filtered);
    }

    /** The goroutines finish in an arbitrary order, each with an arbitrary outcome.
        Every plugin gets its own calls whatever the others do, once for each time it is listed,
        and the batch counts as processed in full even when every write fails. */
    method ProcessBatch(batch: seq<Event>)
      modifies this`eventsProcessed, plugins
      ensures eventsProcessed == old(eventsProcessed) + |batch|
      ensures forall plugin :: plugin in plugins ==>
                plugin.calls == old(plugin.calls) + Repeated(CallFor(batch, plugin.accepts), Listings(plugin))
    {
      if |batch| == 0 {
        NoCalls();
        return;
      }
      var running: set<nat> := {};
      for launched := 0 to |plugins|
        invariant forall p: nat :: p in running <==> p < launched
      {
        running := running + {launched};
      }
      hide CallFor, CallsBut;
      forall plugin ensures CallsBut(running, plugin, batch) == [] { NoneRan(running, plugin, batch); }
      while running != {}
        invariant forall p :: p in running ==> p < |plugins|
        invariant eventsProcessed == old(eventsProcessed)
        invariant forall plugin :: plugin in plugins ==>
                    plugin.calls == old(plugin.calls) + CallsBut(running, plugin, batch)
        decreases |running|
      {
        var p :| p in running;
        WriteToPlugin(plugins[p], batch);
        forall plugin | plugin in plugins
          ensures plugin.calls == old(plugin.calls) + CallsBut(running - {p}, plugin, batch)
        {
          OneMore(running, p, plugin, batch);
          Associative(old(plugin.calls), CallsBut(running, plugin, batch),
                      if plugins[p] == plugin then CallFor(batch, plugin.accepts) else []);
        }
        running := running - {p};
      }
      eventsProcessed := eventsProcessed + |batch|;
      forall plugin { AllRan(plugin, batch); }
    }

    lemma NoCalls()
      ensures forall accepts, n :: Repeated(CallFor([], accepts), n) == []
    {
      forall accepts: Event -> bool, n: nat
        ensures Repeated(CallFor([], accepts), n) == []
      {
        NothingRepeated(n);
      }
    }

    /** The calls each plugin has got so far. */
    ghost function CallsSoFar(): map<Plugin, seq<seq<Event>>>
      reads plugins
    {
      map plugin | plugin in plugins :: plugin.calls
    }

    /** Since each plugin had the calls `prior`, it got those for `batches`, and their events
        were counted on top of `base`. */
    ghost predicate Delivered(prior: map<Plugin, seq<seq<Event>>>, base: nat, batches: seq<seq<Event>>)
      reads this`eventsProcessed, plugins
    {
      && eventsProcessed == base + |Flat(batches)|
      && forall plugin :: plugin in plugins ==>
           plugin in prior
           && plugin.calls == prior[plugin] + ListedCalls(batches, plugin.accepts, Listings(plugin))
    }

    lemma NothingDelivered(prior: map<Plugin, seq<seq<Event>>>, base: nat)
      requires prior == CallsSoFar() && base == eventsProcessed
      ensures Delivered(prior, base, [])
    {
    }

    /** Runs the flush function on the batch handed over after the first `count`, if any. */
    method Deliver(batcher: Batcher, count: nat, ghost prior: map<Plugin, seq<seq<Event>>>, ghost base: nat)
      requires batcher.Valid()
      requires count <= |batcher.flushed| <= count + 1
      requires Delivered(prior, base, batcher.flushed[..count])
      modifies this`eventsProcessed, plugins
      ensures Delivered(prior, base, batcher.flushed)
    {
      ghost var batches := batcher.flushed;
      if |batcher.handed| > count {
        var batch := batcher.handed[count];
        assert batches == batches[..count] + [batch[..]];
        FlatAppend(batches[..count], batch[..]);
        ProcessBatch(batch[..]);
        hide CallFor, ListedCalls, Flat, Repeated, Listings;
        forall plugin | plugin in plugins
          ensures plugin.calls == prior[plugin] + ListedCalls(batches, plugin.accepts, Listings(plugin))
        {
          CallsExtend(prior[plugin], batches, plugin.accepts, Listings(plugin));
        }
      } else {
        assert batches[..count] == batches;
      }
    }

    /** `batcher` is where the operations `ops` of a fresh batcher have led to. */
    ghost predicate At(batcher: Batcher, ops: seq<Op>)
      reads batcher, batcher.events, batcher.handed
    {
      && batcher.Valid() && batcher.maxSize == batchSize && batcher.maxWait == flushInterval
      && RunOps(ops, batchSize, flushInterval) == Some(batcher.View())
    }

    /** One worker with its batcher under any finite schedule: events arrive, the worker receives
        when it gets to its select, timers fire when they are due and their callbacks flush.
        In the end the context is cancelled, or the channel is closed and the worker
        empties it; either way it flushes what is left. The batches it cut are the ones the
        schedule prescribes, they hold the events it received, in order, and each plugin
        got exactly their calls. */
    method Worker(schedule: seq<Turn>, cancelled: bool) returns (ghost batches: seq<seq<Event>>)
      modifies this`inputChan, this`eventsProcessed, plugins
      ensures batches == BatchesOf(schedule, cancelled, old(inputChan), batchSize, flushInterval)
      ensures Flat(batches) + inputChan == old(inputChan) + Arrivals(schedule)
      ensures inputChan == if cancelled then LeftAfter(schedule, old(inputChan)) else []
      ensures eventsProcessed == old(eventsProcessed) + |Flat(batches)|
      ensures forall plugin :: plugin in plugins ==>
                plugin.calls == old(plugin.calls) + ListedCalls(batches, plugin.accepts, Listings(plugin))
    {
      ghost var base, prior := eventsProcessed, CallsSoFar();
      NothingDelivered(prior, base);
      var batcher := new Batcher(batchSize, flushInterval);
      RunLoop(schedule, cancelled, batcher, prior, base);
      batches := batcher.flushed;
      ReadLeaves(schedule, old(inputChan), batchSize, flushInterval);
      BatchesHoldReceived(schedule, cancelled, old(inputChan), batchSize, flushInterval);
      LeftInChannel(schedule, cancelled, old(inputChan), inputChan, batchSize, flushInterval);
    }

    /** The select loop of a worker and its final flush. */
    method RunLoop(schedule: seq<Turn>, cancelled: bool, batcher: Batcher,
                   ghost prior: map<Plugin, seq<seq<Event>>>, ghost base: nat)
      requires At(batcher, []) && batcher.clock == 0 && Delivered(prior, base, batcher.flushed)
      modifies this`inputChan, this`eventsProcessed, plugins, batcher, batcher.events
      ensures inputChan
           == if cancelled then Read(schedule, old(inputChan), batchSize, flushInterval).queue else []
      ensures At(batcher, WorkerOps(schedule, cancelled, old(inputChan), batchSize, flushInterval))
      ensures Delivered(prior, base, batcher.flushed)
    {
      hide At, Delivered, Read, RunOps;
      var now := Loop(schedule, batcher, prior, base);
      ghost var read := Read(schedule, old(inputChan), batchSize, flushInterval);
      ghost var ops := read.ops;
      if !cancelled {
        ops := ReceiveAll(batcher, now, ops, prior, base);
      } else {
        assert ops + [] == ops;
      }
      Finish(batcher, ops, prior, base);
    }

    /** The receive loop of a worker, as far as the schedule goes. */
    method Loop(schedule: seq<Turn>, batcher: Batcher, ghost prior: map<Plugin, seq<seq<Event>>>, ghost base: nat)
      returns (now: nat)
      requires At(batcher, []) && batcher.clock == 0 && Delivered(prior, base, batcher.flushed)
      modifies this`inputChan, this`eventsProcessed, plugins, batcher, batcher.events
      ensures var read := Read(schedule, old(inputChan), batchSize, flushInterval);
              inputChan == read.queue && now == read.now && batcher.clock <= now && At(batcher, read.ops)
      ensures Delivered(prior, base, batcher.flushed)
      ensures batcher.events == old(batcher.events) || fresh(batcher.events)
    {
      hide At, Delivered, Read;
      now := 0;
      NothingRead(old(inputChan), batchSize, flushInterval);
      for i := 0 to |schedule|
        invariant var read := Read(schedule[..i], old(inputChan), batchSize, flushInterval);
                  inputChan == read.queue && now == read.now && batcher.clock <= now && At(batcher, read.ops)
        invariant batcher.events == old(batcher.events) || fresh(batcher.events)
        invariant Delivered(prior, base, batcher.flushed)
      {
        ghost var read := Read(schedule[..i], old(inputChan), batchSize, flushInterval);
        ReadTurn(schedule, i, old(inputChan), batchSize, flushInterval);
        match schedule[i]
        case Arrival(event) =>
          inputChan := inputChan + [event];
        case Reception(elapsed) =>
          now := now + elapsed;
          if inputChan != [] {
            Receive(batcher, now, read.ops, prior, base);
          }
        case Expiry(id, elapsed) =>
          now := now + elapsed;
          FireIfDue(batcher, id, now, read.ops);
        case Callback(id) =>
          CallBack(batcher, id, read.ops, prior, base);
      }
      assert schedule[..|schedule|] == schedule;
    }

    /** The receive loop of a worker once the channel is closed. No timer fires any more, so that
        the clock does not matter. */
    method ReceiveAll(batcher: Batcher, now: nat, ghost before: seq<Op>,
                      ghost prior: map<Plugin, seq<seq<Event>>>, ghost base: nat)
      returns (ghost ops: seq<Op>)
      requires At(batcher, before) && batcher.clock <= now && Delivered(prior, base, batcher.flushed)
      modifies this`inputChan, this`eventsProcessed, plugins, batcher, batcher.events
      ensures inputChan == [] && ops == before + Adds(old(inputChan), now)
      ensures At(batcher, ops) && Delivered(prior, base, batcher.flushed)
      ensures batcher.events == old(batcher.events) || fresh(batcher.events)
    {
      hide At, Delivered;
      ops := before;
      while inputChan != []
        invariant ops + Adds(inputChan, now) == before + Adds(old(inputChan), now)
        invariant batcher.events == old(batcher.events) || fresh(batcher.events)
        invariant At(batcher, ops) && batcher.clock <= now
        invariant Delivered(prior, base, batcher.flushed)
        decreases |inputChan|
      {
        FirstAdd(ops, inputChan, now);
        ghost var event := inputChan[0];
        Receive(batcher, now, ops, prior, base);
        ops := ops + [Op.Add(event, now)];
      }
      assert ops + [] == ops;
    }

    /** The worker receives one event and handles it. */
    method Receive(batcher: Batcher, now: nat, ghost before: seq<Op>,
                   ghost prior: map<Plugin, seq<seq<Event>>>, ghost base: nat)
      requires inputChan != []
      requires At(batcher, before) && batcher.clock <= now && Delivered(prior, base, batcher.flushed)
      modifies this`inputChan, this`eventsProcessed, plugins, batcher, batcher.events
      ensures inputChan == old(inputChan)[1..]
      ensures At(batcher, before + [Op.Add(old(inputChan)[0], now)]) && batcher.clock == now
      ensures Delivered(prior, base, batcher.flushed)
      ensures batcher.events == old(batcher.events) || fresh(batcher.events)
    {
      hide At, Delivered;
      var event := inputChan[0];
      inputChan := inputChan[1..];
      Handle(batcher, event, now, before, prior, base);
    }

    /** One received event: add it, and run the flush function if that filled the batch. */
    method Handle(batcher: Batcher, event: Event, now: nat, ghost before: seq<Op>,
                  ghost prior: map<Plugin, seq<seq<Event>>>, ghost base: nat)
      requires At(batcher, before) && batcher.clock <= now && Delivered(prior, base, batcher.flushed)
      modifies this`eventsProcessed, plugins, batcher, batcher.events
      ensures At(batcher, before + [Op.Add(event, now)]) && batcher.clock == now
      ensures Delivered(prior, base, batcher.flushed)
      ensures batcher.events == old(batcher.events) || fresh(batcher.events)
    {
      var count := |batcher.handed|;
      hide TimerInv, Append, ListedCalls, Flat, RunOps;
      RunOpsAppend(before, Op.Add(event, now), batchSize, flushInterval);
      batcher.Add(event, now);
      assert batcher.flushed[..count] == old(batcher.flushed);
      Deliver(batcher, count, prior, base);
    }

    /** A timer fires if it is armed and due. */
    method FireIfDue(batcher: Batcher, id: nat, now: nat, ghost before: seq<Op>)
      requires At(batcher, before) && batcher.clock <= now
      modifies batcher`armed, batcher`fired, batcher`clock
      ensures At(batcher, IfPossible(before, Op.Fire(id, now), batchSize, flushInterval)) && batcher.clock <= now
    {
      hide TimerInv, RunOps;
      if id in batcher.armed && batcher.armed[id] <= now {
        RunOpsAppend(before, Op.Fire(id, now), batchSize, flushInterval);
        batcher.Expire(id, now);
      }
    }

    /** If the callback waits, it takes the lock and flushes. */
    method CallBack(batcher: Batcher, id: nat, ghost before: seq<Op>,
                    ghost prior: map<Plugin, seq<seq<Event>>>, ghost base: nat)
      requires At(batcher, before) && Delivered(prior, base, batcher.flushed)
      modifies this`eventsProcessed, plugins, batcher, batcher.events
      ensures At(batcher, IfPossible(before, Op.Timeout(id), batchSize, flushInterval))
      ensures batcher.clock == old(batcher.clock)
      ensures Delivered(prior, base, batcher.flushed)
      ensures batcher.events == old(batcher.events)
    {
      hide TimerInv, ListedCalls, Flat, RunOps;
      if id in batcher.fired {
        var count := |batcher.handed|;
        RunOpsAppend(before, Op.Timeout(id), batchSize, flushInterval);
        batcher.TimeoutFlush(id);
        assert batcher.flushed[..count] == old(batcher.flushed);
        Deliver(batcher, count, prior, base);
      }
    }

    /** The final flush of a worker. */
    method Finish(batcher: Batcher, ghost before: seq<Op>,
                  ghost prior: map<Plugin, seq<seq<Event>>>, ghost base: nat)
      requires At(batcher, before) && Delivered(prior, base, batcher.flushed)
      modifies this`eventsProcessed, plugins, batcher, batcher.events
      ensures At(batcher, before + [Op.Flush]) && Delivered(prior, base, batcher.flushed)
    {
      var count := |batcher.handed|;
      hide TimerInv, ListedCalls, Flat, RunOps;
      RunOpsAppend(before, Op.Flush, batchSize, flushInterval);
      batcher.Flush();
      assert batcher.flushed[..count] == old(batcher.flushed);
      Deliver(batcher, count, prior, base);
    }
  }

  lemma {:induction false} NothingRepeated(n: nat)
    ensures Repeated([], n) == []
  {
    if n > 0 {
      NothingRepeated(n - 1);
    }
  }

  function UpTo(n: nat): (numbers: set<nat>)
    ensures forall p: nat :: p in numbers <==> p < n
  {
    if n == 0 then {} else UpTo(n - 1) + {n - 1}
  }

  lemma {:induction false} Cardinality(part: set<nat>, whole: set<nat>)
    requires part <= whole
    ensures |part| <= |whole|
  {
    if part != {} {
      var x :| x in part;
      Cardinality(part - {x}, whole - {x});
    }
  }

  /** One more batch, one more call per listing of a plugin that accepts any of it. */
  lemma CallsExtend(prior: seq<seq<Event>>, batches: seq<seq<Event>>, accepts: Event -> bool, listings: nat)
    requires batches != []
    ensures var n := |batches| - 1;
            (prior + ListedCalls(batches[..n], accepts, listings)) + Repeated(CallFor(batches[n], accepts), listings)
            == prior + ListedCalls(batches, accepts, listings)
  {
    var n := |batches| - 1;
    Associative(prior, ListedCalls(batches[..n], accepts, listings), Repeated(CallFor(batches[n], accepts), listings));
  }
}
