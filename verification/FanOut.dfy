/** The fan-out of one batch to the storage plugins. */
module FanOut {
  import opened Sequences
  import opened Events

  /** The calls one plugin gets for one batch: the accepted events, never an empty list. */
  function CallFor(batch: seq<Event>, accepts: Event -> bool): seq<seq<Event>> {
    var accepted := Filter(batch, accepts);
    if accepted == [] then [] else [accepted]
  }

  /** The calls one plugin gets for a list of batches. */
  function CallsFor(batches: seq<seq<Event>>, accepts: Event -> bool): seq<seq<Event>> {
    if batches == [] then []
    else CallsFor(batches[..|batches| - 1], accepts) + CallFor(batches[|batches| - 1], accepts)
  }

  lemma CallsForAppend(batches: seq<seq<Event>>, batch: seq<Event>, accepts: Event -> bool)
    ensures CallsFor(batches + [batch], accepts) == CallsFor(batches, accepts) + CallFor(batch, accepts)
  {
    assert (batches + [batch])[..|batches|] == batches;
  }

  lemma FlatCallFor(batch: seq<Event>, accepts: Event -> bool)
    ensures Flat(CallFor(batch, accepts)) == Filter(batch, accepts)
  {
    var accepted := Filter(batch, accepts);
    if accepted != [] {
      assert [accepted][..0] == [];
      assert Flat([accepted]) == [] + accepted;
    }
  }

  /** Through its calls a plugin sees exactly the events it accepts, in flush order. */
  lemma {:induction false} CallsCarryTheAcceptedEvents(batches: seq<seq<Event>>, accepts: Event -> bool)
    ensures Flat(CallsFor(batches, accepts)) == Filter(Flat(batches), accepts)
  {
    if batches != [] {
      var front, last := batches[..|batches| - 1], batches[|batches| - 1];
      CallsCarryTheAcceptedEvents(front, accepts);
      FlatCallFor(last, accepts);
      FlatConcat(CallsFor(front, accepts), CallFor(last, accepts));
      FilterConcat(Flat(front), last, accepts);
    }
  }

  lemma {:induction false} NoCallIsEmpty(batches: seq<seq<Event>>, accepts: Event -> bool)
    ensures [] !in CallsFor(batches, accepts)
    ensures |CallsFor(batches, accepts)| <= |batches|
  {
    if batches != [] {
      NoCallIsEmpty(batches[..|batches| - 1], accepts);
    }
  }

  /** `n` goroutines for one plugin make the same calls `n` times. */
  function Repeated(calls: seq<seq<Event>>, n: nat): seq<seq<Event>> {
    if n == 0 then [] else Repeated(calls, n - 1) + calls
  }

  /** The calls for a list of batches of a plugin that is listed `n` times. */
  function ListedCalls(batches: seq<seq<Event>>, accepts: Event -> bool, n: nat): seq<seq<Event>> {
    if batches == [] then []
    else ListedCalls(batches[..|batches| - 1], accepts, n) + Repeated(CallFor(batches[|batches| - 1], accepts), n)
  }

  /** Listed once, a plugin gets one call per batch; not listed, none. */
  lemma {:induction false} ListedOnce(batches: seq<seq<Event>>, accepts: Event -> bool)
    ensures ListedCalls(batches, accepts, 1) == CallsFor(batches, accepts)
    ensures ListedCalls(batches, accepts, 0) == []
  {
    if batches != [] {
      ListedOnce(batches[..|batches| - 1], accepts);
      var call := CallFor(batches[|batches| - 1], accepts);
      assert Repeated(call, 1) == Repeated(call, 0) + call == call;
    }
  }

  /** A storage backend: a fixed filter, and a write whose outcome is arbitrary. */
  class Plugin {
    const accepts: Event -> bool
    /** The arguments of the `WriteBatch` calls so far. */
    var calls: seq<seq<Event>>

    constructor (accepts: Event -> bool)
      ensures this.accepts == accepts && calls == []
    {
      this.accepts := accepts;
      calls := [];
    }

    method WriteBatch(events: seq<Event>) returns (count: int, failed: bool)
      modifies this
      ensures calls == old(calls) + [events]
    {
      calls := calls + [events];
      count, failed := *, *;
    }
  }
}
