/** When the service adapter is polled: in exactly the cycles, not held up by a snapshot, that come more than a
    millisecond after the last such cycle. */
module TickTimes {
  import opened Aeron
  import opened ReplicatedState
  import opened Reassembly
  import opened Publications
  import opened AgentSpec
  import opened SnapshotFreeze
  import opened DutyCycles
  import opened Journals

  /** No snapshot holds the cycle up: there is none, or it is acknowledged in it. */
  predicate IsFree(s: AgentState, c: Cycle)
  {
    s.snapshot.None? ||
    (ServicePartDone(s, c.snapshot) && c.snapshot.recorded && TryClaim(c.snapshot.ackClaims) == CLAIMED)
  }

  predicate PollIsDue(s: AgentState, c: Cycle)
  {
    s.failure.None? && IsFree(s, c) && TickIsDue(s, c) && !c.aeronClosedLater && !c.commitPositionClosed
  }

  lemma ReadyWhenFree(s: AgentState, c: Cycle)
    ensures BehindSnapshot(s, c).Some? <==> s.failure.None? && IsFree(s, c)
    ensures BehindSnapshot(s, c).Some? ==>
              var ready := BehindSnapshot(s, c).value;
              ready.isAbort == s.isAbort && ready.lastSlowTickNs == s.lastSlowTickNs
              && Ticks(ready.journal) == Ticks(s.journal)
  {
    hide ServicePartDone, SnapshotWork, TryClaim;
    if s.failure.None? && s.snapshot.Some? {
      AcknowledgesExactly(s, c.snapshot);
      WorkTicksNot(s, c.snapshot);
    }
  }

  lemma {:induction false} TicksAdd(journal: seq<Note>, more: seq<Note>)
    ensures Ticks(journal + more) == Ticks(journal) + Ticks(more)
    decreases |more|
  {
    if more == [] {
      assert journal + more == journal;
    } else {
      var init := more[..|more| - 1];
      assert (journal + more)[..|journal + more| - 1] == journal + init;
      TicksAdd(journal, init);
    }
  }

  lemma {:induction false} NoTicks(more: seq<Note>)
    requires forall k | 0 <= k < |more| :: !more[k].AdapterPolled?
    ensures Ticks(more) == []
  {
    if |more| > 0 {
      NoTicks(more[..|more| - 1]);
    }
  }

  /** Nothing of the kind was noted. */
  ghost predicate TicksNot(s: AgentState, t: AgentState)
  {
    s.journal <= t.journal && forall k | |s.journal| <= k < |t.journal| :: !t.journal[k].AdapterPolled?
  }

  lemma SameTicks(s: AgentState, t: AgentState)
    requires TicksNot(s, t)
    ensures Ticks(t.journal) == Ticks(s.journal)
  {
    var more := t.journal[|s.journal|..];
    assert t.journal == s.journal + more;
    TicksAdd(s.journal, more);
    NoTicks(more);
  }

  lemma WorkTicksNot(s: AgentState, c: SnapshotCycle)
    requires s.snapshot.Some? && s.failure.None?
    ensures var t := SnapshotWork(s, c).0;
            && Ticks(t.journal) == Ticks(s.journal) && t.isAbort == s.isAbort
            && t.lastSlowTickNs == s.lastSlowTickNs
  {
    WorksExactly(s, c);
    hide SnapshotWork, WorkFailure, StateIsOut, ServicePartDone, Writes, Ticks;
    SameTicks(s, SnapshotWork(s, c).0);
  }

  lemma LogTicksNot(s: AgentState, c: Cycle)
    requires s.failure.None?
    ensures Ticks(PollLog(s, c).journal) == Ticks(s.journal) && PollLog(s, c).lastSlowTickNs == s.lastSlowTickNs
  {
    if s.image.Some? {
      var available := if c.imageClosed then 0 else c.available;
      PollCalls(s, c.commitPosition, available, s.config.fragmentLimit, c.accepts);
      PollKeepsClock(s, c.commitPosition, available, s.config.fragmentLimit, c.accepts);
      ClosesExactly(s, c);
      hide Poll, PollLog, Position, Ticks;
      SameTicks(s, PollLog(s, c));
    }
  }

  lemma PollKeepsClock(s: AgentState, limit: int, available: nat, fragments: nat, accepts: nat)
    requires s.image.Some? && s.failure.None?
    ensures Poll(s, limit, available, fragments, accepts).0.lastSlowTickNs == s.lastSlowTickNs
  {
    PollsExactly(s, limit, available, fragments, accepts);
    hide Poll, ReadsToStop, Replay, AppliedEvents, Feed;
  }

  lemma JoinTicksNot(s: AgentState, c: Cycle, t: AgentState, joined: bool)
    requires s.activeLog.Some? && s.failure.None? && JoinedTo(s, c, t, joined)
    ensures TicksNot(s, t) && t.lastSlowTickNs == s.lastSlowTickNs
  {
    hide TryClaim, FoundOf;
  }

  lemma TickTicksOnce(s: AgentState, c: Cycle)
    requires s.failure.None?
    ensures var t := PollServiceAdapter(s, c);
            Ticks(t.journal) == Ticks(s.journal) + [c.nowNs] && t.lastSlowTickNs == s.lastSlowTickNs
  {
    TicksExactly(s, c);
    ToldExactly(s, c);
    var told, t := Told(s, c), PollServiceAdapter(s, c);
    Snoc(s.journal, AdapterPolled(c.nowNs));
    hide Told, PollServiceAdapter, JoinedTo, TryClaim, FoundOf, Ticks;
    if told.failure.None? && WaitsToJoin(told) && AllFound(FoundOf(told.activeLog.value, c)) {
      var joining, joined :| && JoinedTo(told, c, joining, joined)
                             && t == if joined then joining.(activeLog := None) else joining;
      JoinTicksNot(told, c, joining, joined);
    }
    SameTicks(told, t);
  }

  /** A duty cycle polls the service adapter, once and at its own time, if and only if that is due. */
  lemma TicksWhenDue(s: AgentState, c: Cycle)
    ensures AtAdapter(s, Duty(c)).Some? <==> PollIsDue(s, c)
    ensures Ticks(DoWork(s, c).journal) == Ticks(s.journal) + (if PollIsDue(s, c) then [c.nowNs] else [])
    ensures DoWork(s, c).lastSlowTickNs ==
            if s.failure.None? && IsFree(s, c) && TickIsDue(s, c) then c.nowNs else s.lastSlowTickNs
  {
    CycleInParts(s, c);
    ReadyWhenFree(s, c);
    assert Ticks(s.journal) + [] == Ticks(s.journal);
    if BehindSnapshot(s, c).Some? {
      var ready := BehindSnapshot(s, c).value;
      ClockExactly(ready, c);
      AtWhenTicked(s, c);
      var clock := CheckForClockTick(ready, c).0;
      hide BehindSnapshot, AtAdapter, DoWork, PollLog, CheckForClockTick, PollServiceAdapter, Ticks, IsFree;
      if AtAdapter(s, Duty(c)).Some? {
        var at := AtAdapter(s, Duty(c)).value;
        TickTicksOnce(at, c);
        if PollServiceAdapter(at, c).failure.None? {
          LogTicksNot(PollServiceAdapter(at, c), c);
        }
      } else if clock.failure.None? {
        LogTicksNot(clock, c);
      }
    } else if s.failure.None? {
      hide SnapshotWork, AtAdapter, DoWork;
      WorkTicksNot(s, c.snapshot);
    }
  }

  lemma AtWhenTicked(s: AgentState, c: Cycle)
    ensures AtAdapter(s, Duty(c)).Some? <==> BehindSnapshot(s, c).Some? && PollsAdapter(BehindSnapshot(s, c).value, c)
  {
    hide SnapshotWork, CheckForClockTick;
  }

  function DueTimes(s: AgentState, inputs: seq<Input>): seq<int>
  {
    if |inputs| == 0 then []
    else
      var init, last := inputs[..|inputs| - 1], inputs[|inputs| - 1];
      DueTimes(s, init) + if last.Duty? && PollIsDue(Run(s, init), last.cycle) then [last.cycle.nowNs] else []
  }

  /** Over any run the times at which the service adapter was polled are those of the cycles in which that was
      due. */
  lemma {:induction false} TicksAreDue(s: AgentState, inputs: seq<Input>)
    ensures Ticks(Run(s, inputs).journal) == Ticks(s.journal) + DueTimes(s, inputs)
    decreases |inputs|
  {
    assert Ticks(s.journal) + [] == Ticks(s.journal);
    if |inputs| > 0 {
      var init, last := inputs[..|inputs| - 1], inputs[|inputs| - 1];
      var before := Run(s, init);
      TicksAreDue(s, init);
      if last.Duty? {
        TicksWhenDue(before, last.cycle);
      } else {
        CloseTicksNot(before, last);
      }
      hide Ticks, PollIsDue, Step;
      var due := if last.Duty? && PollIsDue(before, last.cycle) then [last.cycle.nowNs] else [];
      assert Ticks(s.journal) + DueTimes(s, init) + due == Ticks(s.journal) + (DueTimes(s, init) + due);
    }
  }

  lemma CloseTicksNot(s: AgentState, i: Input)
    requires i.Close?
    ensures Ticks(Step(s, i).journal) == Ticks(s.journal)
  {
    hide TryClaim, Ticks;
    SameTicks(s, Step(s, i));
  }
}
