/** Ack numbers and tick spacing, of every run from any state that has them: nothing else in the state
    matters to either. */
module AckNumbers {
  import opened Aeron
  import opened SessionTable
  import opened ReplicatedState
  import opened Reassembly
  import opened Publications
  import opened Snapshots
  import opened AgentSpec
  import opened Journals

  ghost predicate AcksCounted(s: AgentState)
  {
    && |Acks(s.journal)| == s.ackId
    && forall i | 0 <= i < |Acks(s.journal)| :: Acks(s.journal)[i].ServiceAck? && Acks(s.journal)[i].ackId == i
  }

  ghost predicate TicksApart(s: AgentState)
  {
    var ticks := Ticks(s.journal);
    && (forall i | 1 <= i < |ticks| :: ticks[i] - ticks[i - 1] > TICK_NS)
    && (|ticks| > 0 ==> ticks[|ticks| - 1] <= s.lastSlowTickNs)
  }

  /** Acks are numbered 0, 1, 2, ... as they come, the ack counter being their count; and the service
      adapter's polls are more than a tick apart. */
  ghost predicate Numbered(s: AgentState) { AcksCounted(s) && TicksApart(s) }

  /** No ack, no poll of the service adapter, and neither counter nor clock moved. */
  ghost predicate Uncounted(s: AgentState, t: AgentState)
  {
    && t.ackId == s.ackId && t.lastSlowTickNs == s.lastSlowTickNs
    && Acks(t.journal) == Acks(s.journal) && Ticks(t.journal) == Ticks(s.journal)
  }

  lemma UncountedKeeps(s: AgentState, t: AgentState)
    requires Numbered(s) && Uncounted(s, t)
    ensures Numbered(t)
  {
  }

  lemma UncountedFurther(s: AgentState, t: AgentState, u: AgentState)
    requires Uncounted(s, t) && Uncounted(t, u)
    ensures Uncounted(s, u)
  {
  }

  /** A note that is neither. */
  lemma NoteUncounted(s: AgentState, t: AgentState, n: Note)
    requires t.ackId == s.ackId && t.lastSlowTickNs == s.lastSlowTickNs && t.journal == s.journal + [n]
    requires !n.AdapterPolled? && !(n.Sent? && n.request.ServiceAck?)
    ensures Uncounted(s, t)
  {
    hide Acks, Ticks;
    Snoc(s.journal, n);
    assert Acks(s.journal) + [] == Acks(s.journal) && Ticks(s.journal) + [] == Ticks(s.journal);
  }

  lemma ApplyUncounted(s: AgentState, e: Event, position: int)
    ensures Uncounted(s, Apply(s, e, position))
  {
    HandleCallsOnce(s.core, e, position);
    hide Handle, Acks, Ticks;
    var callbacks := Handle(s.core, e, position).callbacks;
    if |callbacks| == 1 {
      assert CalledAll(callbacks) == [Called(callbacks[0])];
      NoteUncounted(s, Apply(s, e, position), Called(callbacks[0]));
    } else {
      assert s.journal + CalledAll(callbacks) == s.journal;
    }
  }

  lemma FragmentUncounted(s: AgentState, f: Frame, accepts: bool, image: Option<Image>)
    ensures Uncounted(s, OnFragment(s, f, accepts).0.(image := image))
  {
    hide Acks, Ticks, Apply;
    var offered := Offered(s.builder, f);
    if offered.Some? {
      ApplyUncounted(s, s.config.decode(offered.value.payload), offered.value.position);
    }
  }

  lemma {:induction false} PollUncounted(s: AgentState, limit: int, available: nat, fragments: nat, accepts: nat)
    requires s.image.Some?
    ensures Uncounted(s, Poll(s, limit, available, fragments, accepts).0)
    decreases fragments
  {
    hide Uncounted, Apply, After;
    var image := s.image.value;
    if !(|| fragments == 0 || image.consumed >= available || image.consumed >= |image.frames|
         || Position(image) >= limit) {
      var f := image.frames[image.consumed];
      var (next, action) := OnFragment(s, f, accepts > 0);
      FragmentUncounted(s, f, accepts > 0, next.image);
      assert next.(image := next.image) == next;
      if action != ABORT && action != THROWN {
        var moved := next.(image := Some(image.(consumed := image.consumed + 1)));
        FragmentUncounted(s, f, accepts > 0, moved.image);
        PollUncounted(moved, limit, available, fragments - 1,
                      if Offered(s.builder, f).Some? then accepts - 1 else accepts);
        UncountedFurther(s, moved, Poll(s, limit, available, fragments, accepts).0);
      }
    } else {
      Unmoved(s, s);
    }
  }

  lemma Unmoved(s: AgentState, t: AgentState)
    requires t.ackId == s.ackId && t.lastSlowTickNs == s.lastSlowTickNs && t.journal == s.journal
    ensures Uncounted(s, t)
  {
  }

  lemma SilentNumbers(s: AgentState, t: AgentState)
    requires Numbered(s) && t.ackId == s.ackId && t.lastSlowTickNs == s.lastSlowTickNs && t.journal == s.journal
    ensures Numbered(t)
  {
  }

  lemma NoteNumbers(s: AgentState, t: AgentState, n: Note)
    requires Numbered(s) && t.ackId == s.ackId && t.lastSlowTickNs == s.lastSlowTickNs && t.journal == s.journal + [n]
    requires !n.AdapterPolled? && !(n.Sent? && n.request.ServiceAck?)
    ensures Numbered(t)
  {
    NoteUncounted(s, t, n);
    UncountedKeeps(s, t);
  }

  lemma SendAckNumbers(s: AgentState, relevantId: int, results: seq<int>)
    requires Numbered(s)
    ensures Numbered(SendAck(s, relevantId, results).0)
  {
    hide Acks, Ticks, TryClaim;
    var ack := ServiceAck(s.core.logPosition, s.core.clusterTime, s.ackId, relevantId, s.config.serviceId);
    Snoc(s.journal, Sent(ack));
    assert Ticks(s.journal) + [] == Ticks(s.journal);
  }

  lemma SetRoleNumbers(s: AgentState, role: Role)
    requires Numbered(s)
    ensures Numbered(SetRole(s, role))
  {
    hide Numbered;
    if role != s.role {
      NoteNumbers(s, SetRole(s, role), Called(OnRoleChange(role)));
    }
  }

  lemma JoinNumbers(s: AgentState, c: Cycle)
    requires Numbered(s) && s.activeLog.Some?
    ensures Numbered(JoinActiveLog(s, c).0)
  {
    hide Numbered, SendAck, SetRole, ResolveJoin;
    var a := ResolveJoin(s.activeLog.value, c);
    if Resolved(a) && a.image.value.joinPosition == s.core.logPosition && a.logPosition == s.core.logPosition {
      var joined := s.(image := a.image, maxLogPosition := a.maxLogPosition,
                       activeLog := Some(a.(subscribed := false)));
      SilentNumbers(s, joined);
      SendAckNumbers(joined, NULL_VALUE, c.joinClaims);
      var member := SendAck(joined, NULL_VALUE, c.joinClaims).0.(memberId := a.memberId);
      SilentNumbers(SendAck(joined, NULL_VALUE, c.joinClaims).0, member);
      var reset := member.(closing := {}, journal := member.journal + [ClosingReset]);
      NoteNumbers(member, reset, ClosingReset);
      SetRoleNumbers(member, a.role);
      SetRoleNumbers(reset, a.role);
    } else {
      SilentNumbers(s, JoinActiveLog(s, c).0);
    }
  }

  lemma AdapterNumbers(s: AgentState, c: Cycle)
    requires Numbered(s.(journal := s.journal + [AdapterPolled(c.nowNs)]))
    ensures Numbered(PollServiceAdapter(s, c))
  {
    hide Numbered, SendAck, JoinActiveLog;
    var polled := s.(journal := s.journal + [AdapterPolled(c.nowNs)]);
    var told := OnAdapterMessage(polled, c.adapterMessage);
    SilentNumbers(polled, told);
    if told.failure.None? {
      if told.activeLog.Some? && told.image.None? {
        JoinNumbers(told, c);
        var joining := JoinActiveLog(told, c).0;
        SilentNumbers(joining, joining.(activeLog := None));
        SendAckNumbers(joining, NULL_VALUE, c.requestClaims);
      } else {
        SendAckNumbers(told, NULL_VALUE, c.requestClaims);
      }
    }
  }

  lemma TickNumbers(s: AgentState, t: AgentState, nowNs: int)
    requires Numbered(s) && nowNs - s.lastSlowTickNs > TICK_NS
    requires t == s.(lastSlowTickNs := nowNs, journal := s.journal + [AdapterPolled(nowNs)])
    ensures Numbered(t)
  {
    hide Acks, Ticks;
    Snoc(s.journal, AdapterPolled(nowNs));
    assert Acks(s.journal) + [] == Acks(s.journal);
  }

  lemma LaterNumbers(s: AgentState, t: AgentState)
    requires Numbered(s) && s.lastSlowTickNs <= t.lastSlowTickNs && t.ackId == s.ackId && t.journal == s.journal
    ensures Numbered(t)
  {
  }

  lemma PollLogNumbers(s: AgentState, c: Cycle)
    requires Numbered(s)
    ensures Numbered(PollLog(s, c))
  {
    hide Numbered, Uncounted, Poll, SetRole;
    if s.image.Some? {
      var available := if c.imageClosed then 0 else c.available;
      var read := Poll(s, c.commitPosition, available, s.config.fragmentLimit, c.accepts).0;
      PollUncounted(s, c.commitPosition, available, s.config.fragmentLimit, c.accepts);
      UncountedKeeps(s, read);
      var closed := read.(core := read.core.(logPosition := Max(Position(read.image.value), read.core.logPosition)),
                          image := None);
      SilentNumbers(read, closed);
      SetRoleNumbers(closed, FOLLOWER);
    }
  }

  lemma PollAllNumbers(s: AgentState, c: Cycle)
    requires Numbered(s)
    ensures Numbered(PollAll(s, c))
  {
    hide Numbered, PollServiceAdapter, PollLog;
    var (clock, ticked) := CheckForClockTick(s, c);
    LaterNumbers(s, clock);
    if ticked {
      TickNumbers(s, clock.(journal := s.journal + [AdapterPolled(c.nowNs)]), c.nowNs);
      AdapterNumbers(clock, c);
      PollLogNumbers(PollServiceAdapter(clock, c), c);
    } else if clock.failure.None? {
      PollLogNumbers(clock, c);
    }
  }

  lemma SnapshotNumbers(s: AgentState, c: SnapshotCycle)
    requires Numbered(s) && s.snapshot.Some?
    ensures Numbered(SnapshotWork(s, c).0)
  {
    hide Numbered, SendAck, WriteState;
    var snapshot := s.snapshot.value.(published := true);
    var writing := if snapshot.recordingId.None? then WriteState(s, snapshot, c) else (snapshot, None);
    var written := s.(snapshot := Some(writing.0));
    SilentNumbers(s, written);
    SilentNumbers(s, written.(failure := writing.1));
    SilentNumbers(s, s.(snapshot := Some(snapshot)));
    SilentNumbers(s, s.(snapshot := Some(snapshot), failure := Some(ArchiveRefused)));
    if && (s.snapshot.value.published || c.publicationFound) && (snapshot.recordingId.Some? || c.recordingId.Some?)
       && !ArchiveThrows(s.snapshot.value, c) && writing.1.None? {
      RecordingIsKnown(s, snapshot, c);
      CompleteNumbers(written, c);
    }
  }

  lemma RecordingIsKnown(s: AgentState, snapshot: Snapshot, c: SnapshotCycle)
    ensures WriteState(s, snapshot, c).0.recordingId == c.recordingId
  {
    hide OfferAll, SnapshotOf;
  }

  lemma CompleteNumbers(s: AgentState, c: SnapshotCycle)
    requires Numbered(s) && s.snapshot.Some? && s.snapshot.value.recordingId.Some?
    ensures Numbered(CompleteSnapshot(s, c).0)
  {
    hide Numbered, SendAck;
    var asked := AskService(s, c);
    if !s.snapshot.value.complete {
      NoteNumbers(s, asked, Called(OnTakeSnapshot));
    }
    SendAckNumbers(asked, asked.snapshot.value.recordingId.value, c.ackClaims);
  }

  /** Every step keeps the numbers, whatever else the state is. */
  lemma StepNumbers(s: AgentState, i: Input)
    requires Numbered(s)
    ensures Numbered(Step(s, i))
  {
    hide Numbered, SnapshotWork, PollAll, TryClaim;
    match i
    case Duty(c) =>
      if s.failure.None? {
        if s.snapshot.Some? {
          var worked := SnapshotWork(s, c.snapshot).0;
          SnapshotNumbers(s, c.snapshot);
          SilentNumbers(worked, worked.(snapshot := None));
          PollAllNumbers(worked.(snapshot := None), c);
        } else {
          PollAllNumbers(s, c);
        }
      }
    case Close(id, inLifecycleCallback, results) =>
      var t := CloseClientSession(s, id, inLifecycleCallback, results).0;
      if t != s {
        NoteNumbers(s, t, Sent(CloseSession(id)));
      }
  }

  /** In every run the acks published are numbered 0, 1, 2, ... without a gap, and polls of the service
      adapter are more than a tick apart, whatever sessions the run started from. */
  lemma {:induction false} RunNumbers(s: AgentState, inputs: seq<Input>)
    requires AcksCounted(s) && TicksApart(s)
    ensures AcksCounted(Run(s, inputs)) && TicksApart(Run(s, inputs))
    decreases |inputs|
  {
    hide AcksCounted, TicksApart, Step;
    if |inputs| > 0 {
      var init, last := inputs[..|inputs| - 1], inputs[|inputs| - 1];
      RunNumbers(s, init);
      StepNumbers(Run(s, init), last);
    }
  }

  // ---- The ack of a join ----

  /** A join of an image and an event at the log position comes about unless its ack is refused for
      good. It publishes that ack if and only if the claim was granted: one that gave up goes unnoticed. */
  lemma JoinAcksIffClaimed(s: AgentState, c: Cycle)
    requires s.activeLog.Some? && s.failure.None?
    requires var a := ResolveJoin(s.activeLog.value, c);
             Resolved(a) && a.image.value.joinPosition == s.core.logPosition && a.logPosition == s.core.logPosition
    ensures var (t, joined) := JoinActiveLog(s, c);
            && (joined <==> !TryClaim(c.joinClaims).REFUSED?)
            && (Acks(t.journal) == Acks(s.journal) +
                  [ServiceAck(s.core.logPosition, s.core.clusterTime, s.ackId, NULL_VALUE, s.config.serviceId)]
                <==> TryClaim(c.joinClaims) == CLAIMED)
            && (TryClaim(c.joinClaims) != CLAIMED ==> Acks(t.journal) == Acks(s.journal))
  {
    hide Acks, Ticks, TryClaim, ResolveJoin;
    var a := ResolveJoin(s.activeLog.value, c);
    var joined := s.(image := a.image, maxLogPosition := a.maxLogPosition, activeLog := Some(a.(subscribed := false)));
    var ack := ServiceAck(s.core.logPosition, s.core.clusterTime, s.ackId, NULL_VALUE, s.config.serviceId);
    var acked := SendAck(joined, NULL_VALUE, c.joinClaims).0;
    Snoc(s.journal, Sent(ack));
    Snoc(acked.journal, ClosingReset);
    Snoc(acked.journal, Called(OnRoleChange(a.role)));
    Snoc(acked.journal + [ClosingReset], Called(OnRoleChange(a.role)));
    assert Acks(acked.journal) + [] == Acks(acked.journal);
    assert Acks(s.journal) + [ack] != Acks(s.journal);
  }
}
