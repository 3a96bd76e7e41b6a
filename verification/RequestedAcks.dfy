/** The acks without a relevant id: each answers a join, or a position the consensus module asked for, and then
    nothing is asked for any more. */
module RequestedAcks {
  import opened Aeron
  import opened ReplicatedState
  import opened Reassembly
  import opened Publications
  import opened AgentSpec
  import opened DutyCycles
  import opened Journals
  import opened SnapshotFreeze
  import opened PendingAcks

  // ---- Phases that send nothing ----

  lemma QuietFurther(s: AgentState, t: AgentState, u: AgentState)
    requires Quiet(s, t) && Quiet(t, u)
    ensures Quiet(s, u)
  {
    forall k | |s.journal| <= k < |u.journal| ensures !u.journal[k].Sent? {
      assert k < |t.journal| ==> u.journal[k] == t.journal[k];
    }
  }

  lemma PollQuiet(s: AgentState, limit: int, available: nat, fragments: nat, accepts: nat)
    requires s.image.Some? && s.failure.None?
    ensures Quiet(s, Poll(s, limit, available, fragments, accepts).0)
  {
    PollsExactly(s, limit, available, fragments, accepts);
    hide Poll, ReadsToStop, Replay, AppliedEvents, Feed;
  }

  lemma PollLogQuiet(s: AgentState, c: Cycle)
    requires s.failure.None?
    ensures Quiet(s, PollLog(s, c))
  {
    NothingDone(s);
    if s.image.Some? {
      var available := if c.imageClosed then 0 else c.available;
      var read := Poll(s, c.commitPosition, available, s.config.fragmentLimit, c.accepts).0;
      PollQuiet(s, c.commitPosition, available, s.config.fragmentLimit, c.accepts);
      ClosesExactly(s, c);
      hide Poll, PollLog, Position;
      QuietFurther(s, read, PollLog(s, c));
    }
  }

  // ---- What a plain ack clears ----

  /** Where a plain ack was sent on the way, nothing is asked for; and nothing is asked for anew. */
  ghost predicate Clears(s: AgentState, t: AgentState)
  {
    && s.journal <= t.journal
    && t.requestedAckPosition in {s.requestedAckPosition, NULL_POSITION}
    && (t.requestedAckPosition != NULL_POSITION ==>
          forall k | |s.journal| <= k < |t.journal| :: !IsPlainAck(t.journal[k]))
  }

  lemma ClearsFurther(s: AgentState, t: AgentState, u: AgentState)
    requires Clears(s, t) && Clears(t, u)
    ensures Clears(s, u)
  {
    forall k | |s.journal| <= k < |u.journal| && u.requestedAckPosition != NULL_POSITION
      ensures !IsPlainAck(u.journal[k])
    {
      assert k < |t.journal| ==> u.journal[k] == t.journal[k];
    }
  }

  lemma QuietClears(s: AgentState, t: AgentState)
    requires Quiet(s, t)
    ensures Clears(s, t)
  {
  }

  lemma JoinedClears(s: AgentState, c: Cycle, t: AgentState, joined: bool)
    requires s.activeLog.Some? && s.failure.None? && JoinedTo(s, c, t, joined)
    ensures Clears(s, t)
  {
    hide TryClaim, FoundOf;
  }

  lemma TickClears(s: AgentState, c: Cycle)
    requires s.failure.None?
    ensures Clears(Told(s, c), PollServiceAdapter(s, c))
  {
    TicksExactly(s, c);
    ToldExactly(s, c);
    var told := Told(s, c);
    hide Told, PollServiceAdapter, JoinedTo, TryClaim, FoundOf;
    if told.failure.None? && WaitsToJoin(told) && AllFound(FoundOf(told.activeLog.value, c)) {
      var joining, joined :| && JoinedTo(told, c, joining, joined)
                             && PollServiceAdapter(s, c) == if joined then joining.(activeLog := None) else joining;
      JoinedClears(told, c, joining, joined);
    }
  }

  /** What is left of a request by the work on a snapshot: it goes with the ack of a recording without an id. */
  lemma WorkClears(s: AgentState, c: SnapshotCycle)
    requires s.snapshot.Some? && s.failure.None?
    ensures Clears(s, SnapshotWork(s, c).0)
  {
    WorksExactly(s, c);
    hide SnapshotWork, WorkFailure, StateIsOut, ServicePartDone, Writes;
  }

  lemma LogClears(s: AgentState, c: Cycle)
    requires s.failure.None?
    ensures Clears(s, PollLog(s, c))
  {
    PollLogQuiet(s, c);
    QuietClears(s, PollLog(s, c));
  }

  /** From behind the message on, to the end of the cycle. */
  lemma RestClears(s: AgentState, c: Cycle)
    requires AtAdapter(s, Duty(c)).Some?
    ensures Clears(Told(AtAdapter(s, Duty(c)).value, c), DoWork(s, c))
  {
    CycleInParts(s, c);
    var at := AtAdapter(s, Duty(c)).value;
    hide AtAdapter, DoWork, Told, Clears, PollServiceAdapter, PollLog, BehindSnapshot;
    TickClears(at, c);
    var ticked := PollServiceAdapter(at, c);
    if ticked.failure.None? {
      LogClears(ticked, c);
      ClearsFurther(Told(at, c), ticked, DoWork(s, c));
    }
  }

  /** To where the clock is looked at. */
  lemma StartClears(s: AgentState, c: Cycle)
    requires BehindSnapshot(s, c).Some?
    ensures Clears(s, BehindSnapshot(s, c).value)
  {
    if s.snapshot.Some? {
      hide SnapshotWork;
      WorkClears(s, c.snapshot);
    }
  }

  /** A cycle that does not poll the service adapter. */
  lemma TicklessClears(s: AgentState, c: Cycle)
    requires AtAdapter(s, Duty(c)).None?
    ensures Clears(s, DoWork(s, c))
  {
    CycleInParts(s, c);
    if BehindSnapshot(s, c).Some? {
      StartClears(s, c);
      var ready := BehindSnapshot(s, c).value;
      ClockExactly(ready, c);
      var clock := CheckForClockTick(ready, c).0;
      hide BehindSnapshot, AtAdapter, DoWork, PollLog, CheckForClockTick, PollServiceAdapter;
      if clock.failure.None? {
        LogClears(clock, c);
      }
      hide Clears;
      QuietClears(ready, clock);
      if clock.failure.None? {
        ClearsFurther(ready, clock, DoWork(s, c));
      }
      ClearsFurther(s, ready, DoWork(s, c));
    } else if s.failure.None? {
      hide SnapshotWork, DoWork, AtAdapter;
      WorkClears(s, c.snapshot);
    }
  }

  /** Where a duty cycle published a plain ack, nothing is pending at its end; unless that was the ack of a
      recording without an id, and the message polled after it asked anew. */
  lemma AckClearsRequest(s: AgentState, c: Cycle, k: nat)
    requires |s.journal| <= k < |DoWork(s, c).journal| && IsPlainAck(DoWork(s, c).journal[k])
    ensures var t, at := DoWork(s, c), AtAdapter(s, Duty(c));
            t.requestedAckPosition != NULL_POSITION ==>
              && at.Some? && k < |at.value.journal| && c.adapterMessage == RequestServiceAck(t.requestedAckPosition)
  {
    if AtAdapter(s, Duty(c)).None? {
      TicklessClears(s, c);
    } else {
      CycleInParts(s, c);
      StartClears(s, c);
      var at := AtAdapter(s, Duty(c)).value;
      RestClears(s, c);
      ToldExactly(at, c);
      hide AtAdapter, BehindSnapshot, DoWork, Told, PollServiceAdapter, PollLog;
      var told, t := Told(at, c), DoWork(s, c);
      assert at.failure.None? && told.journal[|at.journal|] == AdapterPolled(c.nowNs);
      if k < |at.journal| {
        assert t.journal[k] == at.journal[k];
      }
    }
  }

  /** A duty cycle takes back nothing. A position stays pending until a plain ack is published, or the request is
      itself withdrawn; and with a plain ack it is pending no more, but for what is asked for after it. All acks
      of a cycle carry the log position it started from. */
  lemma PendingUntilAcked(s: AgentState, c: Cycle)
    ensures var t, at := DoWork(s, c), AtAdapter(s, Duty(c));
            && s.journal <= t.journal
            && (forall k | |s.journal| <= k < |t.journal| :: IsAckAt(t.journal[k], s.core.logPosition))
            && (s.requestedAckPosition != NULL_POSITION && t.requestedAckPosition == NULL_POSITION ==>
                  c.adapterMessage == RequestServiceAck(NULL_POSITION) || AckedSince(t.journal, |s.journal|))
            && (AckedSince(t.journal, |s.journal|) ==>
                  || t.requestedAckPosition == NULL_POSITION
                  || (at.Some? && AckedSince(at.value.journal, |s.journal|)
                      && c.adapterMessage == RequestServiceAck(t.requestedAckPosition)))
  {
    OnlyAcksClear(s, c);
    var t, at := DoWork(s, c), AtAdapter(s, Duty(c));
    if AckedSince(t.journal, |s.journal|) {
      var k :| |s.journal| <= k < |t.journal| && IsPlainAck(t.journal[k]);
      AckClearsRequest(s, c, k);
      if t.requestedAckPosition != NULL_POSITION {
        AtBefore(s, c);
        assert at.value.journal[k] == t.journal[k];
      }
    }
    hide DoWork, AtAdapter;
  }

  lemma AtBefore(s: AgentState, c: Cycle)
    requires AtAdapter(s, Duty(c)).Some?
    ensures AtAdapter(s, Duty(c)).value.journal <= DoWork(s, c).journal
  {
    CycleInParts(s, c);
    RestClears(s, c);
    var at := AtAdapter(s, Duty(c)).value;
    assert at.failure.None?;
    ToldExactly(at, c);
    hide AtAdapter, DoWork, Told;
  }

  // ---- How many there are ----

  function PlainAcks(journal: seq<Note>): nat { Count(IsPlainAck, journal) }

  lemma PlainAcksAdd(journal: seq<Note>, more: seq<Note>)
    ensures PlainAcks(journal + more) == PlainAcks(journal) + PlainAcks(more)
  {
    CountAdds(IsPlainAck, journal, more);
  }

  lemma QuietCounts(s: AgentState, t: AgentState)
    requires Quiet(s, t)
    ensures PlainAcks(t.journal) == PlainAcks(s.journal) && t.requestedAckPosition == s.requestedAckPosition
  {
    var more := t.journal[|s.journal|..];
    assert t.journal == s.journal + more;
    CountIsZero(IsPlainAck, more);
    PlainAcksAdd(s.journal, more);
  }

  lemma OneNote(n: Note)
    ensures PlainAcks([n]) == if IsPlainAck(n) then 1 else 0
    ensures PlainAcks([]) == 0
  {
    CountOne(IsPlainAck, n);
  }

  /** With what it knows after the message, a tick publishes a plain ack: that of a join that has all it needs
      and starts at the log position, or else that of a requested position the log has reached; if the claim
      is granted. */
  predicate AcksPlainly(told: AgentState, c: Cycle)
  {
    told.failure.None? &&
    if WaitsToJoin(told) && AllFound(FoundOf(told.activeLog.value, c)) then
      Contiguous(told, FoundOf(told.activeLog.value, c)) && TryClaim(c.joinClaims) == CLAIMED
    else
      && told.requestedAckPosition != NULL_POSITION && told.requestedAckPosition <= told.core.logPosition
      && TryClaim(c.requestClaims) == CLAIMED
  }

  predicate IsPending(s: AgentState) { s.requestedAckPosition != NULL_POSITION }

  lemma JoinCounts(s: AgentState, c: Cycle, t: AgentState, joined: bool)
    requires s.activeLog.Some? && s.failure.None? && AllFound(FoundOf(s.activeLog.value, c))
    requires JoinedTo(s, c, t, joined)
    ensures var acked := Contiguous(s, FoundOf(s.activeLog.value, c)) && TryClaim(c.joinClaims) == CLAIMED;
            && PlainAcks(t.journal) == PlainAcks(s.journal) + (if acked then 1 else 0)
            && t.requestedAckPosition == (if acked then NULL_POSITION else s.requestedAckPosition)
  {
    var a := FoundOf(s.activeLog.value, c);
    var ack := if TryClaim(c.joinClaims) == CLAIMED then [PlainAck(s)] else [];
    var reset := if a.role == LEADER then [ClosingReset] else [];
    var role := if a.role != s.role then [Called(OnRoleChange(a.role))] else [];
    PlainAcksAdd(s.journal, ack);
    PlainAcksAdd(s.journal + ack, reset);
    PlainAcksAdd(s.journal + ack + reset, role);
    OneNote(PlainAck(s));
    OneNote(ClosingReset);
    OneNote(Called(OnRoleChange(a.role)));
    hide PlainAcks, TryClaim, FoundOf;
  }

  lemma TickCounts(s: AgentState, c: Cycle)
    requires s.failure.None?
    ensures var told, t := Told(s, c), PollServiceAdapter(s, c);
            && PlainAcks(t.journal) == PlainAcks(told.journal) + (if AcksPlainly(told, c) then 1 else 0)
            && t.requestedAckPosition == (if AcksPlainly(told, c) then NULL_POSITION else told.requestedAckPosition)
  {
    TicksExactly(s, c);
    ToldExactly(s, c);
    var told := Told(s, c);
    PlainAcksAdd(told.journal, [PlainAck(told)]);
    OneNote(PlainAck(told));
    hide Told, PollServiceAdapter, JoinedTo, TryClaim, FoundOf, PlainAcks;
    if told.failure.None? && WaitsToJoin(told) && AllFound(FoundOf(told.activeLog.value, c)) {
      var joining, joined :| && JoinedTo(told, c, joining, joined)
                             && PollServiceAdapter(s, c) == if joined then joining.(activeLog := None) else joining;
      JoinCounts(told, c, joining, joined);
    }
  }

  /** The recording has no id that is known: its ack is a plain one. */
  predicate AcksUnknown(s: AgentState, c: Cycle)
  {
    && s.failure.None? && s.snapshot.Some?
    && var (worked, acked) := SnapshotWork(s, c.snapshot);
    acked && worked.snapshot.Some? && worked.snapshot.value.recordingId == Some(NULL_VALUE)
  }

  lemma WorkCounts(s: AgentState, c: Cycle)
    requires s.snapshot.Some? && s.failure.None?
    ensures var t := SnapshotWork(s, c.snapshot).0;
            && PlainAcks(t.journal) == PlainAcks(s.journal) + (if AcksUnknown(s, c) then 1 else 0)
            && t.requestedAckPosition == (if AcksUnknown(s, c) then NULL_POSITION else s.requestedAckPosition)
  {
    WorksExactly(s, c.snapshot);
    var (t, acked) := SnapshotWork(s, c.snapshot);
    var calls := if StateIsOut(s, c.snapshot) && !s.snapshot.value.complete then [Called(OnTakeSnapshot)] else [];
    var acks := if acked then [Sent(RecordingAck(s, t.snapshot.value.recordingId.value))] else [];
    PlainAcksAdd(s.journal, calls);
    PlainAcksAdd(s.journal + calls, acks);
    OneNote(Called(OnTakeSnapshot));
    if acked {
      OneNote(Sent(RecordingAck(s, t.snapshot.value.recordingId.value)));
    }
    hide SnapshotWork, PlainAcks, WorkFailure, StateIsOut, ServicePartDone, Writes;
  }

  /** A duty cycle publishes as plain acks that of a recording without an id, and that of its tick, and no
      others; after either, nothing is pending but what a message asked for since. */
  lemma CycleCounts(s: AgentState, c: Cycle)
    ensures var t, at := DoWork(s, c), AtAdapter(s, Duty(c));
            var unknown := AcksUnknown(s, c);
            var ticks := at.Some? && AcksPlainly(Told(at.value, c), c);
            && PlainAcks(t.journal) == PlainAcks(s.journal) + (if unknown then 1 else 0) + (if ticks then 1 else 0)
            && t.requestedAckPosition ==
               if ticks then NULL_POSITION
               else if at.Some? && c.adapterMessage.RequestServiceAck? then c.adapterMessage.logPosition
               else if unknown then NULL_POSITION
               else s.requestedAckPosition
  {
    CycleInParts(s, c);
    if s.failure.None? {
      if s.snapshot.Some? {
        WorkCounts(s, c);
      }
      if BehindSnapshot(s, c).Some? {
        if AtAdapter(s, Duty(c)).Some? {
          TickedCounts(s, c);
        } else {
          TicklessCounts(s, c);
        }
      }
    }
    hide DoWork, AtAdapter, PlainAcks, SnapshotWork, Told;
  }

  lemma TicklessCounts(s: AgentState, c: Cycle)
    requires BehindSnapshot(s, c).Some? && AtAdapter(s, Duty(c)).None?
    ensures var ready, t := BehindSnapshot(s, c).value, DoWork(s, c);
            PlainAcks(t.journal) == PlainAcks(ready.journal) && t.requestedAckPosition == ready.requestedAckPosition
  {
    CycleInParts(s, c);
    var ready := BehindSnapshot(s, c).value;
    ClockExactly(ready, c);
    var clock := CheckForClockTick(ready, c).0;
    hide BehindSnapshot, AtAdapter, DoWork, PollLog, CheckForClockTick, PollServiceAdapter, PlainAcks;
    if clock.failure.None? {
      PollLogQuiet(clock, c);
      QuietCounts(clock, PollLog(clock, c));
    }
  }

  lemma TickedCounts(s: AgentState, c: Cycle)
    requires BehindSnapshot(s, c).Some? && AtAdapter(s, Duty(c)).Some?
    ensures var ready, t, at := BehindSnapshot(s, c).value, DoWork(s, c), AtAdapter(s, Duty(c)).value;
            var ticks := AcksPlainly(Told(at, c), c);
            && PlainAcks(t.journal) == PlainAcks(ready.journal) + (if ticks then 1 else 0)
            && t.requestedAckPosition ==
               if ticks then NULL_POSITION
               else if c.adapterMessage.RequestServiceAck? then c.adapterMessage.logPosition
               else ready.requestedAckPosition
  {
    CycleInParts(s, c);
    var at := AtAdapter(s, Duty(c)).value;
    hide BehindSnapshot, AtAdapter, DoWork, PollLog, Told, PollServiceAdapter, AcksPlainly;
    ToldExactly(at, c);
    TickCounts(at, c);
    PlainAcksAdd(at.journal, [AdapterPolled(c.nowNs)]);
    OneNote(AdapterPolled(c.nowNs));
    hide PlainAcks;
    var ticked := PollServiceAdapter(at, c);
    if ticked.failure.None? {
      PollLogQuiet(ticked, c);
      QuietCounts(ticked, PollLog(ticked, c));
    }
  }

  // ---- Over a run ----

  /** What an input lets be acknowledged plainly: a position asked for in it, a join whose ack is published, and
      a recording without an id. */
  function Owed(s: AgentState, i: Input): nat
  {
    if !i.Duty? then 0
    else
      var c, at := i.cycle, AtAdapter(s, i);
      (if at.Some? && c.adapterMessage.RequestServiceAck? && c.adapterMessage.logPosition != NULL_POSITION
       then 1 else 0)
      + (if JoinedBy(s, i).Some? && TryClaim(c.joinClaims) == CLAIMED then 1 else 0)
      + (if AcksUnknown(s, c) then 1 else 0)
  }

  function OwedOver(s: AgentState, inputs: seq<Input>): nat
  {
    if |inputs| == 0 then 0
    else
      var init := inputs[..|inputs| - 1];
      OwedOver(s, init) + Owed(Run(s, init), inputs[|inputs| - 1])
  }

  /** Plain acks published, and one more if a position is pending. */
  function Outstanding(s: AgentState): nat { PlainAcks(s.journal) + if IsPending(s) then 1 else 0 }

  lemma JoinedIffFound(s: AgentState, c: Cycle)
    requires AtAdapter(s, Duty(c)).Some? && Told(AtAdapter(s, Duty(c)).value, c).failure.None?
    ensures var told := Told(AtAdapter(s, Duty(c)).value, c);
            JoinedBy(s, Duty(c)).Some? <==>
            && WaitsToJoin(told) && AllFound(FoundOf(told.activeLog.value, c))
            && Contiguous(told, FoundOf(told.activeLog.value, c)) && !TryClaim(c.joinClaims).REFUSED?
  {
    var told := Told(AtAdapter(s, Duty(c)).value, c);
    hide AtAdapter, Told;
    if WaitsToJoin(told) {
      JoinsExactly(told, c);
      hide JoinActiveLog, TryClaim, FoundOf;
    }
  }

  lemma StepOwes(s: AgentState, i: Input)
    ensures Outstanding(Step(s, i)) <= Outstanding(s) + Owed(s, i)
  {
    if i.Duty? {
      CycleCounts(s, i.cycle);
      if AtAdapter(s, i).Some? && Told(AtAdapter(s, i).value, i.cycle).failure.None? {
        JoinedIffFound(s, i.cycle);
        AtKeepsRequest(s, i.cycle);
        ToldExactly(AtAdapter(s, i).value, i.cycle);
      }
      hide DoWork, AtAdapter, JoinedBy, AcksUnknown, PlainAcks, TryClaim, Told, FoundOf;
    } else {
      PlainAcksAdd(s.journal, [Sent(CloseSession(i.clusterSessionId))]);
      OneNote(Sent(CloseSession(i.clusterSessionId)));
      hide PlainAcks, TryClaim;
    }
  }

  lemma AtKeepsRequest(s: AgentState, c: Cycle)
    requires AtAdapter(s, Duty(c)).Some?
    ensures AtAdapter(s, Duty(c)).value.failure.None?
    ensures AtAdapter(s, Duty(c)).value.requestedAckPosition ==
            if AcksUnknown(s, c) then NULL_POSITION else s.requestedAckPosition
  {
    CycleInParts(s, c);
    if s.failure.None? && s.snapshot.Some? {
      WorkCounts(s, c);
    }
    hide SnapshotWork, CheckForClockTick;
  }

  /** In any run the plain acks that are neither a join's nor that of a recording without an id are no more than
      the positions asked for: each request is acknowledged once at most. */
  lemma {:induction false} AcksAreAskedFor(s: AgentState, inputs: seq<Input>)
    ensures Outstanding(Run(s, inputs)) <= Outstanding(s) + OwedOver(s, inputs)
    decreases |inputs|
  {
    hide Outstanding, Owed, Step;
    if |inputs| > 0 {
      var init := inputs[..|inputs| - 1];
      AcksAreAskedFor(s, init);
      StepOwes(Run(s, init), inputs[|inputs| - 1]);
    }
  }
}
