/** The batcher class: a growable array buffer that is truncated and reused between
    batches, proved against the value-level functions of `Batching`. */
module BatcherClass {
  import opened Wrappers
  import opened Events
  import opened Batching

  class Batcher {
    /** Backing array of the buffer; the buffer itself is `events[..len]`. */
    var events: array<Event>
    var len: nat
    const maxSize: nat
    const maxWait: nat
    var timer: Option<nat>
    /** The runtime's timers that were created by this batcher. */
    var armed: map<nat, nat>
    var fired: map<nat, nat>
    var nextTimer: nat
    /** The slices handed to the flush function, oldest first. */
    var handed: seq<array<Event>>
    /** What those slices held when they were handed over. */
    ghost var flushed: seq<seq<Event>>
    ghost var addedAt: seq<nat>
    ghost var clock: nat

    ghost function View(): BatcherState
      reads this, events
      requires len <= events.Length
    {
      BatcherState(Buffer(events[..len], addedAt, timer, armed, fired, nextTimer), flushed)
    }

    /** Between calls: the timer invariant holds, the buffer is not full, and every slice
        handed over is separate from the buffer and still holds what was handed over. */
    ghost predicate Valid()
      reads this, events, handed
    {
      && len <= events.Length
      && len < AtLeastOne(maxSize)
      && TimerInv(View().buffer, maxWait, clock, None)
      && BatchesIntact()
    }

    ghost predicate BatchesIntact()
      reads this, handed
    {
      && |handed| == |flushed|
      && (forall i :: 0 <= i < |handed| ==> handed[i] != events && handed[i][..] == flushed[i])
    }

    constructor (maxSize: nat, maxWait: nat)
      ensures Valid() && this.maxSize == maxSize && this.maxWait == maxWait && clock == 0
      ensures View() == BatcherState(EMPTY_BUFFER, []) && handed == []
      ensures fresh(events)
    {
      events := new Event[maxSize];
      len := 0;
      this.maxSize := maxSize;
      this.maxWait := maxWait;
      timer, armed, fired, nextTimer := None, map[], map[], 0;
      handed, flushed, addedAt, clock := [], [], [], 0;
    }

    /** The language's append: write in place while there is capacity, else reallocate. */
    method Grow(event: Event)
      requires len <= events.Length && BatchesIntact()
      modifies this`events, this`len, events
      ensures len == old(len) + 1 <= events.Length
      ensures events[..len] == old(events[..len]) + [event]
      ensures events == old(events) || fresh(events)
      ensures BatchesIntact()
      ensures forall a :: a in handed ==> a[..] == old(a[..])
    {
      if len == events.Length {
        var bigger := new Event[2 * len + 1];
        forall i | 0 <= i < len {
          bigger[i] := events[i];
        }
        assert bigger[..len] == events[..len];
        events := bigger;
      }
      events[len] := event;
      len := len + 1;
      assert events[..len] == events[..len - 1] + [event];
    }

    /** The first part of `Add`: append, and start the timer for the first event. */
    method AppendLocked(event: Event, now: nat)
      requires len <= events.Length && TimerInv(View().buffer, maxWait, clock, None)
      requires BatchesIntact() && clock <= now
      modifies this`events, this`len, this`timer, this`armed, this`nextTimer, this`addedAt, this`clock, events
      ensures len == old(len) + 1 <= events.Length && clock == now
      ensures events[..len] == old(events[..len]) + [event]
      ensures View() == old(View()).(buffer := Append(old(View()).buffer, event, now, maxWait))
      ensures TimerInv(View().buffer, maxWait, clock, None) && BatchesIntact()
      ensures forall a :: a in handed ==> a[..] == old(a[..])
      ensures events == old(events) || fresh(events)
    {
      hide TimerInv;
      ghost var before := View().buffer;
      TimerInvLater(before, maxWait, clock, now, None);
      Grow(event);
      addedAt := addedAt + [now];
      clock := now;
      if len == 1 {
        timer := Some(nextTimer);
        armed := armed[nextTimer := now + maxWait];
        nextTimer := nextTimer + 1;
      }
      AppendKeepsTimerInv(before, event, now, maxWait);
    }

    /** Appends an event, starts the timer for the first one, flushes at the batch size. */
    method Add(event: Event, now: nat)
      requires Valid() && clock <= now
      modifies this, events
      ensures Valid() && clock == now
      ensures View() == AddEvent(old(View()), event, now, maxSize, maxWait)
      ensures old(len) + 1 < maxSize ==> events[..len] == old(events[..len]) + [event] && handed == old(handed)
      ensures old(len) + 1 >= maxSize ==>
                && len == 0 && timer.None? && |handed| == |old(handed)| + 1
                && handed[|old(handed)|][..] == old(events[..len]) + [event]
      ensures fired == old(fired)
      ensures old(handed) <= handed
      ensures forall i :: 0 <= i < |old(handed)| ==> handed[i][..] == old(handed[i][..])
      ensures forall i :: |old(handed)| <= i < |handed| ==> fresh(handed[i])
      ensures events == old(events) || fresh(events)
    {
      hide TimerInv, Append;
      AppendLocked(event, now);
      if len >= maxSize {
        FlushLocked(None);
      }
    }

    /** The copy a flush makes, so that the buffer can be reused. */
    method CopyOut() returns (batch: array<Event>)
      requires len <= events.Length
      ensures fresh(batch) && batch[..] == events[..len]
    {
      batch := new Event[len];
      forall i | 0 <= i < len {
        batch[i] := events[i];
      }
    }

    /** The flush that runs under the lock; `running` is the callback that took it, if any. */
    method FlushLocked(ghost running: Option<nat>)
      requires len <= events.Length && len <= AtLeastOne(maxSize)
      requires TimerInv(View().buffer, maxWait, clock, running) && BatchesIntact()
      modifies this`len, this`timer, this`armed, this`addedAt, this`handed, this`flushed
      ensures Valid()
      ensures View() == FlushNow(old(View()))
      ensures len == 0 && timer.None?
      ensures old(len) == 0 ==> handed == old(handed)
      ensures old(len) > 0 ==>
                |handed| == |old(handed)| + 1 && handed[|old(handed)|][..] == old(events[..len])
      ensures old(handed) <= handed
      ensures forall i :: |old(handed)| <= i < |handed| ==> fresh(handed[i])
    {
      hide TimerInv;
      ghost var before := View().buffer;
      if len == 0 {
        IdleKeepsTimerInv(before, maxWait, clock, running);
        return;
      }
      DetachKeepsTimerInv(before, maxWait, clock, running);
      if timer.Some? {
        armed := armed - {timer.value};
        timer := None;
      }
      var batch := CopyOut();
      len := 0;
      addedAt := [];
      handed := handed + [batch];
      flushed := flushed + [before.pending];
      assert View().buffer == Detach(before);
    }

    /** The runtime fires a timer that is due; its callback then waits for the lock. */
    method Expire(id: nat, now: nat)
      requires Valid() && clock <= now
      requires id in armed && armed[id] <= now
      modifies this`armed, this`fired, this`clock
      ensures Valid() && clock == now
      ensures View() == old(View()).(buffer := FireTimer(old(View()).buffer, id))
      ensures armed == old(armed) - {id} && fired == old(fired)[id := old(armed)[id]]
    {
      ghost var before := View().buffer;
      fired := fired[id := armed[id]];
      armed := armed - {id};
      clock := now;
      FireKeepsTimerInv(before, id, maxWait, now, None);
    }

    /** What the timer callback runs. */
    method TimeoutFlush(id: nat)
      requires Valid() && id in fired
      modifies this, events
      ensures Valid() && clock == old(clock)
      ensures View() == TimeoutNow(old(View()), id)
      ensures len == 0 && timer.None? && fired == old(fired) - {id}
      ensures old(len) == 0 ==> handed == old(handed)
      ensures old(len) > 0 ==>
                |handed| == |old(handed)| + 1 && handed[|old(handed)|][..] == old(events[..len])
      ensures old(handed) <= handed
      ensures forall i :: 0 <= i < |old(handed)| ==> handed[i][..] == old(handed[i][..])
      ensures forall i :: |old(handed)| <= i < |handed| ==> fresh(handed[i])
      ensures events == old(events)
    {
      ghost var before := View().buffer;
      fired := fired - {id};
      TakeKeepsTimerInv(before, id, maxWait, clock);
      assert View().buffer == TakeCallback(before, id);
      FlushLocked(Some(id));
    }

    /** The manual flush of a shutdown. */
    method Flush()
      requires Valid()
      modifies this, events
      ensures Valid() && clock == old(clock)
      ensures View() == FlushNow(old(View()))
      ensures len == 0 && timer.None? && fired == old(fired)
      ensures old(len) == 0 ==> handed == old(handed)
      ensures old(len) > 0 ==>
                |handed| == |old(handed)| + 1 && handed[|old(handed)|][..] == old(events[..len])
      ensures old(handed) <= handed
      ensures forall i :: 0 <= i < |old(handed)| ==> handed[i][..] == old(handed[i][..])
      ensures forall i :: |old(handed)| <= i < |handed| ==> fresh(handed[i])
      ensures events == old(events)
    {
      FlushLocked(None);
    }

    method Size() returns (size: nat)
      requires Valid()
      ensures size == |View().buffer.pending| < AtLeastOne(maxSize)
    {
      size := len;
    }
  }
}
