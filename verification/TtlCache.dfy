/** The in-memory deduplicator: its cache as a value, what a history of marks and
    sweeps leaves in it, and the class whose methods update it in place. */
module TtlCache {
  import opened Wrappers
  import opened Events

  /** Deduplication key to the time of the mark that is stored for it. */
  type Cache = map<string, nat>

  function MarkAt(cache: Cache, key: string, now: nat): Cache {
    cache[key := now]
  }

  predicate Expired(stamp: nat, ttl: nat, now: nat) {
    now - stamp > ttl
  }

  function Swept(cache: Cache, ttl: nat, now: nat): Cache {
    map k | k in cache && !Expired(cache[k], ttl, now) :: cache[k]
  }

  /** The two operations that change the cache, with the clock reading each one takes. */
  datatype Op = Mark(key: string, time: nat) | Sweep(time: nat)

  type History = seq<Op>

  ghost predicate NotAfter(h: History, now: nat) {
    forall i :: 0 <= i < |h| ==> h[i].time <= now
  }

  /** The clock never runs backwards. */
  ghost predicate Timed(h: History) {
    forall i, j :: 0 <= i < j < |h| ==> h[i].time <= h[j].time
  }

  function Applied(cache: Cache, op: Op, ttl: nat): Cache {
    match op
    case Mark(key, time) => MarkAt(cache, key, time)
    case Sweep(time) => Swept(cache, ttl, time)
  }

  ghost function Replay(h: History, ttl: nat): Cache {
    if h == [] then map[]
    else
      Applied(Replay(h[..|h| - 1], ttl), h[|h| - 1], ttl)
  }

  /** When `key` was last marked. */
  ghost function LastMark(h: History, key: string): Option<nat> {
    if h == [] then None
    else match h[|h| - 1]
      case Mark(k, time) => if k == key then Some(time) else LastMark(h[..|h| - 1], key)
      case Sweep(_) => LastMark(h[..|h| - 1], key)
  }

  /** When the cache was last swept; 0, the start of the clock, if it never was. */
  ghost function LastSweep(h: History): nat {
    if h == [] then 0
    else match h[|h| - 1]
      case Mark(_, _) => LastSweep(h[..|h| - 1])
      case Sweep(time) => time
  }

  /** The last mark of `key` had not expired when the cache was last swept. */
  ghost predicate SurvivedSweeps(h: History, ttl: nat, key: string) {
    match LastMark(h, key)
    case None => false
    case Some(marked) => LastSweep(h) <= marked + ttl
  }

  /** The last mark of `key` is at most `ttl` old. */
  ghost predicate Fresh(h: History, ttl: nat, key: string, now: nat) {
    match LastMark(h, key)
    case None => false
    case Some(marked) => now <= marked + ttl
  }

  lemma {:induction false} TimesBounded(h: History, key: string, now: nat)
    requires NotAfter(h, now)
    ensures LastSweep(h) <= now
    ensures LastMark(h, key).Some? ==> LastMark(h, key).value <= now
  {
    if h != [] {
      TimesBounded(h[..|h| - 1], key, now);
    }
  }

  /** What a history leaves in the cache, key by key: exactly the keys whose last
      mark survived the sweeps, each under the time of that mark. */
  lemma {:induction false} HeldExactly(h: History, ttl: nat, key: string)
    requires Timed(h)
    ensures key in Replay(h, ttl) <==> SurvivedSweeps(h, ttl, key)
    ensures key in Replay(h, ttl) ==> LastMark(h, key) == Some(Replay(h, ttl)[key])
  {
    if h != [] {
      var before, last := h[..|h| - 1], h[|h| - 1];
      HeldExactly(before, ttl, key);
      assert NotAfter(before, last.time);
      TimesBounded(before, key, last.time);
    }
  }

  /** No false negative: a key marked within the window is held. */
  lemma FreshKeysAreHeld(h: History, ttl: nat, key: string, now: nat)
    requires Timed(h) && NotAfter(h, now)
    requires Fresh(h, ttl, key, now)
    ensures key in Replay(h, ttl)
  {
    HeldExactly(h, ttl, key);
    TimesBounded(h, key, now);
  }

  /** A lookup disagrees with the ideal window exactly on the marks that have
      expired since the last sweep. */
  lemma StaleAnswersExactly(h: History, ttl: nat, key: string, now: nat)
    requires Timed(h) && NotAfter(h, now)
    ensures (key in Replay(h, ttl)) != Fresh(h, ttl, key, now)
       <==> exists marked :: LastMark(h, key) == Some(marked) && LastSweep(h) <= marked + ttl < now
  {
    HeldExactly(h, ttl, key);
    TimesBounded(h, key, now);
    if LastMark(h, key).Some? {
      var marked := LastMark(h, key).value;
      assert LastMark(h, key) == Some(marked);
    }
  }

  /** Right after a sweep the cache is the ideal window. */
  lemma SweepRestoresTheWindow(h: History, ttl: nat, now: nat)
    requires Timed(h) && NotAfter(h, now)
    ensures forall key :: key in Replay(h + [Sweep(now)], ttl) <==> Fresh(h, ttl, key, now)
  {
    var after := h + [Sweep(now)];
    assert after[..|h|] == h;
    forall key
      ensures key in Replay(after, ttl) <==> Fresh(h, ttl, key, now)
    {
      HeldExactly(after, ttl, key);
    }
  }

  class MemoryDeduplicator {
    var cache: Cache
    const ttl: nat
    /** The cleanup goroutine's stop channel has been closed. */
    var stopped: bool
    /** Marks and sweeps since creation or since `Close`. */
    ghost var history: History

    ghost predicate Valid()
      reads this
    {
      Timed(history) && cache == Replay(history, ttl)
    }

    constructor (ttl: nat)
      ensures Valid() && this.ttl == ttl && !stopped && cache == map[] && history == []
    {
      this.ttl := ttl;
      cache := map[];
      stopped := false;
      history := [];
    }

    method IsDuplicate(event: Event) returns (known: bool)
      requires Valid()
      ensures known <==> SurvivedSweeps(history, ttl, event.DeduplicationKey())
    {
      var key := event.DeduplicationKey();
      known := key in cache;
      HeldExactly(history, ttl, key);
    }

    method Mark(event: Event, now: nat)
      requires Valid() && NotAfter(history, now)
      modifies this`cache, this`history
      ensures Valid()
      ensures history == old(history) + [Op.Mark(event.DeduplicationKey(), now)]
      ensures cache == MarkAt(old(cache), event.DeduplicationKey(), now)
    {
      var key := event.DeduplicationKey();
      cache := cache[key := now];
      history := history + [Op.Mark(key, now)];
      assert history[..|history| - 1] == old(history);
    }

    /** Deletes the expired entries while ranging over the map. */
    method RemoveExpired(now: nat)
      requires Valid() && NotAfter(history, now)
      modifies this`cache, this`history
      ensures Valid()
      ensures history == old(history) + [Sweep(now)]
      ensures cache == Swept(old(cache), ttl, now)
      ensures forall key :: key in cache <==> Fresh(old(history), ttl, key, now)
    {
      var left := cache.Keys;
      while left != {}
        invariant history == old(history)
        invariant left <= cache.Keys <= old(cache).Keys
        invariant forall k :: k in cache ==> cache[k] == old(cache)[k]
        invariant forall k :: k in old(cache) && k !in left ==>
                    (k in cache <==> !Expired(old(cache)[k], ttl, now))
        decreases |left|
      {
        var key :| key in left;
        if now - cache[key] > ttl {
          cache := cache - {key};
        }
        left := left - {key};
      }
      history := history + [Sweep(now)];
      assert history[..|history| - 1] == old(history);
      SweepRestoresTheWindow(old(history), ttl, now);
    }

    method Close()
      requires Valid() && !stopped
      modifies this
      ensures Valid() && stopped && cache == map[] && history == []
    {
      stopped := true;
      cache := map[];
      history := [];
    }
  }
}
