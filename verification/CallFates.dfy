/** What can still become of a `Submit` call once `Shutdown` has begun: for each fate, exactly
    the calls that can meet it, judged by where they are. */
module CallFates {
  import opened Wrappers
  import opened Pipeline
  import opened DedupWindow

  datatype Fate = Sent | Refused | Lost | Crashed

  /** The fate a call has met: its event sent, rejected as a duplicate, dropped, or a panic on
      the closed channel. */
  predicate Met(call: Call, fate: Fate) {
    match fate
    case Sent => call.Accepted()
    case Refused => call.Rejected()
    case Lost => call.pc == Counting(Dropped) || call.pc == Done(Dropped)
    case Crashed => call.pc.Panicked?
  }

  /** Call `i` has met its fate at the end of `run`. */
  ghost predicate MetAfter(c: Config, s: State, run: seq<Action>, i: nat, fate: Fate) {
    match RunFrom(c, s, run)
    case None => false
    case Some(t) => i < |t.calls| && Met(t.calls[i], fate)
  }

  ghost predicate CanMeet(c: Config, s: State, i: nat, fate: Fate) {
    exists run :: MetAfter(c, s, run, i, fate)
  }

  /** The call has not decided its fate. */
  predicate Undecided(call: Call) {
    call.pc.Checking? || call.pc.Marking? || call.pc.Trying? || call.pc.Blocked? || call.pc.Parked?
  }

  // ----- what the steps after the closing of the channel do to a call

  /** Once met, a fate is final; a call that is past its check is not rejected any more; only
      a blocked call is dropped, and only once the context is cancelled; nothing is sent. */
  ghost predicate Follows(before: Call, after: Call, cancellable: bool) {
    && (forall fate :: Met(before, fate) ==> Met(after, fate))
    && (Met(after, Sent) ==> Met(before, Sent))
    && (Met(after, Refused) ==> Met(before, Refused) || before.pc.Checking?)
    && (Met(after, Lost) ==> Met(before, Lost) || (before.pc.Blocked? && cancellable))
    && (Met(after, Crashed) ==> Met(before, Crashed) || Undecided(before))
    && (Undecided(after) ==> Undecided(before))
    && (after.pc.Checking? ==> before.pc.Checking?)
    && (after.pc.Blocked? ==> before.pc.Blocked?)
  }

  /** The context is cancelled or still can be. */
  predicate Cancellable(s: State) {
    s.shutdown.Waiting? || s.shutdown.ReturnedError?
  }

  lemma ClosedFrame(c: Config, s: State, a: Action)
    requires Enabled(c, s, a) && s.Closed()
    ensures var t := Next(c, s, a);
            && t.Closed() && t.sent == s.sent && |s.calls| <= |t.calls|
            && (Cancellable(t) ==> Cancellable(s))
  {
  }

  /** The steps a call can take once the channel is closed. */
  predicate ClosedMove(before: CallPc, after: CallPc, cancellable: bool) {
    || (before.Checking? && (after == Counting(Duplicate) || after.Marking?))
    || (before.Marking? && after.Trying?)
    || (before.Blocked? && after == Counting(Dropped) && cancellable)
    || ((before.Trying? || before.Blocked? || before.Parked?) && after.Panicked?)
    || (before.Counting? && after == Done(before.outcome))
  }

  lemma OwnStep(c: Config, s: State, a: Action, i: nat)
    requires Enabled(c, s, a) && s.Closed() && i < |s.calls| && StepOf(a, i)
    ensures i < |Next(c, s, a).calls|
    ensures ClosedMove(s.calls[i].pc, Next(c, s, a).calls[i].pc, Cancellable(s))
  {
  }

  lemma MoveFollows(before: Call, after: Call, cancellable: bool)
    requires ClosedMove(before.pc, after.pc, cancellable)
    ensures Follows(before, after, cancellable)
  {
  }

  lemma ClosedStep(c: Config, s: State, a: Action, i: nat)
    requires Enabled(c, s, a) && s.Closed() && i < |s.calls|
    ensures var t := Next(c, s, a);
            && t.Closed() && t.sent == s.sent && |s.calls| <= |t.calls|
            && (Cancellable(t) ==> Cancellable(s))
            && Follows(s.calls[i], t.calls[i], Cancellable(s))
  {
    hide Enabled, Next, Follows, ClosedMove;
    ClosedFrame(c, s, a);
    if StepOf(a, i) {
      OwnStep(c, s, a, i);
      MoveFollows(s.calls[i], Next(c, s, a).calls[i], Cancellable(s));
    } else {
      OtherCallsStay(c, s, a, i);
      FollowsItself(s.calls[i], Cancellable(s));
    }
  }

  lemma FollowsComposes(x: Call, y: Call, z: Call, early: bool, late: bool)
    requires Follows(x, y, early) && Follows(y, z, late) && (late ==> early)
    ensures Follows(x, z, early)
  {
  }

  lemma FollowsItself(call: Call, cancellable: bool)
    ensures Follows(call, call, cancellable)
  {
  }

  lemma {:induction false} ClosedRun(c: Config, s: State, run: seq<Action>, i: nat)
    requires s.Closed() && RunFrom(c, s, run).Some? && i < |s.calls|
    ensures var t := RunFrom(c, s, run).value;
            && t.Closed() && |s.calls| <= |t.calls|
            && (Cancellable(t) ==> Cancellable(s))
            && Follows(s.calls[i], t.calls[i], Cancellable(s))
  {
    hide Follows, Enabled, Next;
    if run == [] {
      FollowsItself(s.calls[i], Cancellable(s));
    } else {
      var front, a := run[..|run| - 1], run[|run| - 1];
      ClosedRun(c, s, front, i);
      var t := RunFrom(c, s, front).value;
      ClosedStep(c, t, a, i);
      FollowsComposes(s.calls[i], t.calls[i], Next(c, t, a).calls[i], Cancellable(s), Cancellable(t));
    }
  }

  // ----- nothing is sent any more

  lemma NewCallsUnsent(c: Config, s: State, a: Action)
    requires Enabled(c, s, a)
    ensures forall i :: |s.calls| <= i < |Next(c, s, a).calls| ==> !Met(Next(c, s, a).calls[i], Sent)
  {
  }

  lemma ClosedStepForAll(c: Config, s: State, a: Action)
    requires Enabled(c, s, a) && s.Closed()
    ensures var t := Next(c, s, a);
            && t.Closed() && t.sent == s.sent && |s.calls| <= |t.calls|
            && forall i :: 0 <= i < |t.calls| ==>
                 (t.calls[i].Accepted() <==> i < |s.calls| && s.calls[i].Accepted())
  {
    hide Enabled, Next;
    ClosedFrame(c, s, a);
    NewCallsUnsent(c, s, a);
    forall i | 0 <= i < |s.calls|
      ensures Met(Next(c, s, a).calls[i], Sent) <==> Met(s.calls[i], Sent)
    {
      ClosedStep(c, s, a, i);
    }
  }

  /** Once `Shutdown` has begun, no run sends an event: the calls whose event has been sent stay
      exactly those that had sent it before, and every other call that finishes, started later
      or not, was rejected or dropped or panicked. */
  lemma {:induction false} NothingIsSentAfterClose(c: Config, s: State, run: seq<Action>)
    requires s.Closed() && RunFrom(c, s, run).Some?
    ensures var t := RunFrom(c, s, run).value;
            && t.Closed() && t.sent == s.sent && |s.calls| <= |t.calls|
            && (forall i :: 0 <= i < |t.calls| ==>
                  (t.calls[i].Accepted() <==> i < |s.calls| && s.calls[i].Accepted()))
            && (forall i :: 0 <= i < |t.calls| && t.calls[i].Finished() && !(i < |s.calls| && s.calls[i].Accepted()) ==>
                  t.calls[i].pc in {Done(Duplicate), Done(Dropped), Panicked})
  {
    if run != [] {
      hide Enabled, Next;
      var front, a := run[..|run| - 1], run[|run| - 1];
      NothingIsSentAfterClose(c, s, front);
      ClosedStepForAll(c, RunFrom(c, s, front).value, a);
    }
    var t := RunFrom(c, s, run).value;
    forall i | 0 <= i < |t.calls| && t.calls[i].Finished() && !t.calls[i].Accepted()
      ensures t.calls[i].pc in {Done(Duplicate), Done(Dropped), Panicked}
    {
      if t.calls[i].pc.Done? {
        match t.calls[i].pc.outcome
        case Received =>
        case Duplicate =>
        case Dropped =>
      }
    }
  }

  // ----- every fate that is left open can be met

  /** Only call `i`, the cache and the clock have moved. */
  predicate OnlyCallMoved(s: State, t: State, i: nat)
    requires i < |s.calls|
  {
    && i < |t.calls|
    && t.calls[i].event == s.calls[i].event && t.calls[i].key == s.calls[i].key
    && t == s.(calls := s.calls[i := t.calls[i]], cache := t.cache, now := t.now, order := t.order)
  }

  /** The clock runs and a sweep forgets the key of a call, so that its check finds nothing. */
  lemma Forget(c: Config, s: State, i: nat) returns (run: seq<Action>, t: State)
    requires i < |s.calls|
    ensures RunFrom(c, s, run) == Some(t) && OnlyCallMoved(s, t, i)
    ensures t.calls == s.calls && (c.dedup.Memory? ==> s.calls[i].key !in t.cache)
  {
    run, t := [], s;
    assert s.calls[i := s.calls[i]] == s.calls;
    if c.dedup.Memory? && s.calls[i].key in s.cache {
      var tick := Tick(s.cache[s.calls[i].key] + c.dedup.ttl + 1);
      RunFromAppend(c, s, run, tick);
      run, t := run + [tick], Next(c, t, tick);
      RunFromAppend(c, s, run, Sweep);
      run, t := run + [Sweep], Next(c, t, Sweep);
    }
  }

  lemma MarkMoves(c: Config, s: State, i: nat)
    requires i < |s.calls| && s.calls[i].pc.Marking?
    ensures Enabled(c, s, Mark(i, true))
    ensures var t := Next(c, s, Mark(i, true));
            OnlyCallMoved(s, t, i) && t.calls[i].pc.Trying?
            && (c.dedup.Memory? ==> s.calls[i].key in t.cache)
  {
  }

  lemma CheckMoves(c: Config, s: State, i: nat)
    requires i < |s.calls| && s.calls[i].pc.Checking?
    requires c.dedup.Memory? ==> s.calls[i].key !in s.cache
    ensures Enabled(c, s, Check(i, New))
    ensures var t := Next(c, s, Check(i, New));
            OnlyCallMoved(s, t, i) && t.calls[i].pc.Marking?
  {
  }

  lemma MovesCompose(s: State, t: State, u: State, i: nat)
    requires i < |s.calls| && OnlyCallMoved(s, t, i) && OnlyCallMoved(t, u, i)
    ensures OnlyCallMoved(s, u, i)
  {
    assert s.calls[i := t.calls[i]][i := u.calls[i]] == s.calls[i := u.calls[i]];
  }

  /** From every state, a call that is being checked or marked can get to its send. */
  lemma GetsToSend(c: Config, s: State, i: nat) returns (run: seq<Action>, t: State)
    requires i < |s.calls| && (s.calls[i].pc.Checking? || s.calls[i].pc.Marking?)
    ensures RunFrom(c, s, run) == Some(t) && OnlyCallMoved(s, t, i) && t.calls[i].pc.Trying?
    ensures c.dedup.Memory? ==> s.calls[i].key in t.cache
  {
    run, t := [], s;
    assert s.calls[i := s.calls[i]] == s.calls;
    if s.calls[i].pc.Checking? {
      run, t := Forget(c, s, i);
      CheckMoves(c, t, i);
      MovesCompose(s, t, Next(c, t, Check(i, New)), i);
      RunFromAppend(c, s, run, Check(i, New));
      run, t := run + [Check(i, New)], Next(c, t, Check(i, New));
    }
    hide Enabled, Next, RunFrom;
    MarkMoves(c, t, i);
    MovesCompose(s, t, Next(c, t, Mark(i, true)), i);
    RunFromAppend(c, s, run, Mark(i, true));
    run, t := run + [Mark(i, true)], Next(c, t, Mark(i, true));
  }

  lemma CanPanic(c: Config, s: State, i: nat)
    requires s.Closed() && i < |s.calls| && Undecided(s.calls[i])
    ensures CanMeet(c, s, i, Crashed)
  {
    var run, t := [], s;
    if s.calls[i].pc.Checking? || s.calls[i].pc.Marking? {
      run, t := GetsToSend(c, s, i);
    }
    RunFromAppend(c, s, run, Panic(i));
    assert MetAfter(c, s, run + [Panic(i)], i, Crashed);
  }

  lemma CanDrop(c: Config, s: State, i: nat)
    requires Cancellable(s) && i < |s.calls| && s.calls[i].pc.Blocked?
    ensures CanMeet(c, s, i, Lost)
  {
    var run, t := [], s;
    if s.shutdown.Waiting? {
      RunFromAppend(c, s, run, TimeOut);
      run, t := run + [TimeOut], Next(c, s, TimeOut);
    }
    RunFromAppend(c, s, run, Drop(i));
    assert MetAfter(c, s, run + [Drop(i)], i, Lost);
  }

  /** A call that is still being checked can find its key in the cache, put there by another
      call with the same event if need be. */
  lemma MakeKnown(c: Config, s: State, i: nat) returns (run: seq<Action>, t: State)
    requires i < |s.calls| && s.calls[i].pc.Checking?
    requires c.dedup.Memory? ==> s.calls[i].key == s.calls[i].event.DeduplicationKey()
    ensures RunFrom(c, s, run) == Some(t)
    ensures i < |t.calls| && t.calls[i] == s.calls[i]
    ensures c.dedup.Memory? ==> s.calls[i].key in t.cache
  {
    run, t := [], s;
    if c.dedup.Memory? {
      var start := Start(s.calls[i].event);
      RunFromAppend(c, s, run, start);
      run, t := run + [start], Next(c, s, start);
      hide Enabled, Next, RunFrom;
      var more, u := GetsToSend(c, t, |s.calls|);
      RunsCompose(c, s, run, more);
      run, t := run + more, u;
    }
  }

  lemma CanReject(c: Config, s: State, i: nat)
    requires i < |s.calls| && s.calls[i].pc.Checking?
    requires c.dedup.Memory? ==> s.calls[i].key == s.calls[i].event.DeduplicationKey()
    ensures CanMeet(c, s, i, Refused)
  {
    var run, t := MakeKnown(c, s, i);
    RunFromAppend(c, s, run, Check(i, Known));
    assert MetAfter(c, s, run + [Check(i, Known)], i, Refused);
  }

  lemma AlreadyMet(c: Config, s: State, i: nat, fate: Fate)
    requires i < |s.calls| && Met(s.calls[i], fate)
    ensures CanMeet(c, s, i, fate)
  {
    assert MetAfter(c, s, [], i, fate);
  }

  /** After `Shutdown` has begun, exactly this can still become of a call: it is sent only if it
      has been; it can panic exactly if it had not decided; it can be dropped exactly if it was
      about to enter the second select and the context can be cancelled; it can be rejected exactly if it was still
      being checked. Each fate that was met before stays. */
  lemma FatesExactly(c: Config, s: State, i: nat)
    requires Reachable(c, s) && s.Closed() && i < |s.calls|
    ensures CanMeet(c, s, i, Sent) <==> Met(s.calls[i], Sent)
    ensures CanMeet(c, s, i, Crashed) <==> Met(s.calls[i], Crashed) || Undecided(s.calls[i])
    ensures CanMeet(c, s, i, Lost)
       <==> Met(s.calls[i], Lost) || (s.calls[i].pc.Blocked? && !s.shutdown.ReturnedNil?)
    ensures CanMeet(c, s, i, Refused) <==> Met(s.calls[i], Refused) || s.calls[i].pc.Checking?
  {
    var call := s.calls[i];
    if c.dedup.Memory? {
      ReachableDedup(c, s);
      assert CallInv(call, s.order, s.now);
    }
    forall fate | CanMeet(c, s, i, fate)
      ensures exists t: Call :: Met(t, fate) && Follows(call, t, Cancellable(s))
    {
      var run :| MetAfter(c, s, run, i, fate);
      ClosedRun(c, s, run, i);
    }
    forall fate | Met(call, fate)
      ensures CanMeet(c, s, i, fate)
    {
      AlreadyMet(c, s, i, fate);
    }
    hide CanMeet;
    if Undecided(call) { CanPanic(c, s, i); }
    if call.pc.Blocked? && Cancellable(s) { CanDrop(c, s, i); }
    if call.pc.Checking? { CanReject(c, s, i); }
  }
}
