/** A snapshot under way: the state is written once and whole, with nothing but the service's own
    writes behind it, and stands still until it is acknowledged. */
module SnapshotFreeze {
  import opened Aeron
  import opened SessionTable
  import opened ReplicatedState
  import opened Reassembly
  import opened Publications
  import opened Snapshots
  import opened AgentSpec

  function StateMessages(s: AgentState): seq<SnapshotMessage>
  {
    SnapshotOf(s.core.table.sessions, s.core.logPosition, s.core.leadershipTermId, s.config.appVersion)
  }

  /** What the service writes into the publication in one input: its writes of a duty cycle in which
      the recording is known, or the state is written whole, and its part is not complete yet. */
  function ServiceWrote(s: AgentState, i: Input): seq<SnapshotMessage>
  {
    if i.Duty? && s.failure.None? && s.snapshot.Some? && !s.snapshot.value.complete && StateIsOut(s, i.cycle.snapshot)
    then i.cycle.snapshot.serviceWrites else []
  }

  /** The publication is there, and the recording was known before, or is now and every offer of the state
      is taken. */
  predicate StateIsOut(s: AgentState, c: SnapshotCycle)
    requires s.snapshot.Some?
  {
    && (s.snapshot.value.published || (c.publicationFound && !c.archiveRefuses))
    && (s.snapshot.value.recordingId.Some? || (Writes(s, c) && OfferAll(StateMessages(s), c.offers).1.ALL_OFFERED?))
  }

  /** The recording is found now, and the state is offered to its publication. */
  predicate Writes(s: AgentState, c: SnapshotCycle)
    requires s.snapshot.Some?
  {
    && (s.snapshot.value.published || (c.publicationFound && !c.archiveRefuses))
    && s.snapshot.value.recordingId.None? && c.recordingId.Some?
  }

  /** The archive is asked to record a publication just found, or asked for errors while it records nothing
      yet, and answers an error. */
  predicate ArchiveErrs(s: AgentState, c: SnapshotCycle)
    requires s.snapshot.Some?
  {
    c.archiveRefuses &&
    if s.snapshot.value.published then s.snapshot.value.recordingId.None? && c.recordingId.None?
    else c.publicationFound
  }

  /** The service's own part of the snapshot is complete, from before or as of now. */
  predicate ServicePartDone(s: AgentState, c: SnapshotCycle)
    requires s.snapshot.Some?
  {
    StateIsOut(s, c) && (s.snapshot.value.complete || c.serviceDone)
  }

  /** What the service wrote over a run from `s` on, one input after the other. */
  function ServiceWritesOver(s: AgentState, inputs: seq<Input>): seq<SnapshotMessage>
  {
    if |inputs| == 0 then []
    else
      var init := inputs[..|inputs| - 1];
      ServiceWritesOver(s, init) + ServiceWrote(Run(s, init), inputs[|inputs| - 1])
  }

  /** A duty cycle at whose end there is no snapshot, or one that was only asked for in it. */
  predicate StartsAnew(s: AgentState, i: Input)
  {
    i.Duty? && s.failure.None? && (s.snapshot.None? || SnapshotWork(s, i.cycle.snapshot).1)
  }

  /** What the service wrote into the snapshot under way at the end of a run. */
  function OwnWrites(s: AgentState, inputs: seq<Input>): seq<SnapshotMessage>
  {
    if |inputs| == 0 then []
    else
      var init, last := inputs[..|inputs| - 1], inputs[|inputs| - 1];
      if StartsAnew(Run(s, init), last) then []
      else OwnWrites(s, init) + ServiceWrote(Run(s, init), last)
  }

  /** Once the recording is known the publication holds the state as it is now, once, and behind it
      exactly what the service wrote; before that nothing at all. */
  ghost predicate SnapshotHolds(s: AgentState, own: seq<SnapshotMessage>)
  {
    s.failure.None? && s.snapshot.Some? ==>
      if s.snapshot.value.recordingId.Some? then
        s.snapshot.value.published && s.snapshot.value.contents == StateMessages(s) + own
      else s.snapshot.value.contents == [] && !s.snapshot.value.complete && own == []
  }

  /** No snapshot, or one that an action just asked for. */
  predicate Idle(s: AgentState) { s.snapshot.None? || s.snapshot == Some(NEW_SNAPSHOT) }

  lemma {:induction false} PollStaysIdle(s: AgentState, limit: int, available: nat, fragments: nat, accepts: nat)
    requires Idle(s) && s.image.Some?
    ensures Idle(Poll(s, limit, available, fragments, accepts).0)
    decreases fragments
  {
    var image := s.image.value;
    if !(|| fragments == 0 || image.consumed >= available || image.consumed >= |image.frames|
         || Position(image) >= limit) {
      var f := image.frames[image.consumed];
      var (next, action) := OnFragment(s, f, accepts > 0);
      if action != ABORT && action != THROWN {
        var moved := next.(image := Some(image.(consumed := image.consumed + 1)));
        PollStaysIdle(moved, limit, available, fragments - 1,
                      if Offered(s.builder, f).Some? then accepts - 1 else accepts);
      }
    }
  }

  lemma JoinKeepsSnapshot(s: AgentState, c: Cycle)
    requires s.activeLog.Some?
    ensures JoinActiveLog(s, c).0.snapshot == s.snapshot
  {
  }

  lemma AdapterStaysIdle(s: AgentState, c: Cycle)
    requires Idle(s)
    ensures Idle(PollServiceAdapter(s, c))
  {
    hide Idle;
    var told := OnAdapterMessage(s.(journal := s.journal + [AdapterPolled(c.nowNs)]), c.adapterMessage);
    SameSnapshotIdle(s, told);
    if told.activeLog.Some? {
      JoinKeepsSnapshot(told, c);
    }
    SameSnapshotIdle(s, PollServiceAdapter(s, c));
  }

  lemma SameSnapshotIdle(s: AgentState, t: AgentState)
    requires Idle(s) && s.snapshot == t.snapshot
    ensures Idle(t)
  {
  }

  lemma PollAllStaysIdle(s: AgentState, c: Cycle)
    requires Idle(s)
    ensures Idle(PollAll(s, c))
  {
    var (clock, ticked) := CheckForClockTick(s, c);
    AdapterStaysIdle(clock, c);
    var told := if ticked then PollServiceAdapter(clock, c) else clock;
    if told.image.Some? {
      PollStaysIdle(told, c.commitPosition, if c.imageClosed then 0 else c.available, told.config.fragmentLimit,
                    c.accepts);
    }
  }

  // ---- One step of a snapshot ----

  /** Everything but the snapshot, the journal, the closing marks and the failure is the same. */
  ghost predicate StandsStill(s: AgentState, t: AgentState)
  {
    t.(snapshot := s.snapshot, journal := s.journal, closing := s.closing, failure := s.failure) == s
  }

  predicate Written(s: AgentState)
  {
    s.snapshot.Some? && s.snapshot.value.published && s.snapshot.value.recordingId.Some?
  }

  /** The state has been written and nothing has moved since: the same recording, the publication
      longer by `own` and no more, and only calls for the service's own part of the snapshot and close
      requests in the journal. */
  ghost predicate Frozen(s: AgentState, t: AgentState, own: seq<SnapshotMessage>)
  {
    && StandsStill(s, t)
    && Written(s) && Written(t) && s.snapshot.value.recordingId == t.snapshot.value.recordingId
    && t.snapshot.value.contents == s.snapshot.value.contents + own
    && s.journal <= t.journal
    && forall k | |s.journal| <= k < |t.journal| ::
         t.journal[k] == Called(OnTakeSnapshot) || (t.journal[k].Sent? && t.journal[k].request.CloseSession?)
  }

  /** The ack of the recording, at the position and time of the moment. */
  function RecordingAck(s: AgentState, recordingId: int): Request
  {
    ServiceAck(s.core.logPosition, s.core.clusterTime, s.ackId, recordingId, s.config.serviceId)
  }

  /** The duty cycle `c` acknowledges the recording, at the very position and time at which everything
      stands still and with the service's last writes in the publication, before it polls anything. */
  ghost predicate Acknowledges(s: AgentState, c: Cycle)
    requires Written(s)
  {
    var (worked, done) := SnapshotWork(s, c.snapshot);
    && done && worked.core == s.core && worked.snapshot.Some?
    && worked.snapshot.value.contents == s.snapshot.value.contents + ServiceWrote(s, Duty(c))
    && |worked.journal| > |s.journal| && s.journal <= worked.journal
    && worked.journal[|worked.journal| - 1] == Sent(RecordingAck(s, s.snapshot.value.recordingId.value))
    && (forall k | |s.journal| <= k < |worked.journal| - 1 :: worked.journal[k] == Called(OnTakeSnapshot))
    && DoWork(s, c) == PollAll(worked.(snapshot := None), c)
  }

  lemma AskFreezes(s: AgentState, c: Cycle)
    requires Written(s) && s.failure.None?
    ensures Frozen(s, AskService(s, c.snapshot), ServiceWrote(s, Duty(c)))
  {
    hide StateMessages;
    assert s.snapshot.value.contents + [] == s.snapshot.value.contents;
  }

  lemma WrittenWork(s: AgentState, c: SnapshotCycle)
    requires Written(s)
    ensures SnapshotWork(s, c) == CompleteSnapshot(s, c)
  {
  }

  lemma WrittenAck(s: AgentState, c: Cycle)
    requires Written(s) && s.failure.None? && SnapshotWork(s, c.snapshot).1
    ensures Acknowledges(s, c)
  {
    WrittenWork(s, c.snapshot);
    AskFreezes(s, c);
    hide StateMessages, ServiceWrote, TryClaim;
    AskCallsOnly(s, c.snapshot);
  }

  lemma AskCallsOnly(s: AgentState, c: SnapshotCycle)
    requires s.snapshot.Some?
    ensures AskService(s, c).core == s.core && AskService(s, c).ackId == s.ackId && AskService(s, c).config == s.config
    ensures forall k | |s.journal| <= k < |AskService(s, c).journal| ::
              AskService(s, c).journal[k] == Called(OnTakeSnapshot)
  {
  }

  /** From the write of the state on, every input leaves everything as it was but for the service's own
      writes, or is the duty cycle that acknowledges the recording. */
  lemma WrittenStep(s: AgentState, i: Input)
    requires Written(s) && s.failure.None?
    ensures Frozen(s, Step(s, i), ServiceWrote(s, i)) || (i.Duty? && Acknowledges(s, i.cycle))
  {
    if i.Duty? {
      var c := i.cycle;
      if SnapshotWork(s, c.snapshot).1 {
        WrittenAck(s, c);
      } else {
        UnfinishedFreezes(s, c);
      }
    } else {
      CloseFreezes(s, i);
    }
  }

  lemma UnfinishedFreezes(s: AgentState, c: Cycle)
    requires Written(s) && s.failure.None? && !SnapshotWork(s, c.snapshot).1
    ensures Frozen(s, DoWork(s, c), ServiceWrote(s, Duty(c)))
  {
    WrittenWork(s, c.snapshot);
    AskFreezes(s, c);
    var asked := AskService(s, c.snapshot);
    var t := DoWork(s, c);
    assert t == asked.(failure := t.failure) by {
      hide ServiceWrote, AskService, Frozen;
    }
    hide ServiceWrote, AskService, DoWork;
    RefusalFreezes(s, asked, t, ServiceWrote(s, Duty(c)));
  }

  lemma RefusalFreezes(s: AgentState, asked: AgentState, acked: AgentState, own: seq<SnapshotMessage>)
    requires Frozen(s, asked, own) && acked == asked.(failure := acked.failure)
    ensures Frozen(s, acked, own)
  {
  }

  lemma CloseFreezes(s: AgentState, i: Input)
    requires Written(s) && i.Close?
    ensures Frozen(s, Step(s, i), ServiceWrote(s, i)) && ServiceWrote(s, i) == []
  {
    hide TryClaim;
    assert s.snapshot.value.contents + [] == s.snapshot.value.contents;
  }

  lemma FrozenAtOnce(s: AgentState)
    requires Written(s)
    ensures Frozen(s, s, [])
  {
  }

  lemma FrozenStaysWritten(s: AgentState, t: AgentState, own: seq<SnapshotMessage>)
    requires Frozen(s, t, own)
    ensures Written(t)
  {
  }

  lemma FrozenFurther(s: AgentState, t: AgentState, u: AgentState, own: seq<SnapshotMessage>,
                      more: seq<SnapshotMessage>)
    requires Frozen(s, t, own) && Frozen(t, u, more)
    ensures Frozen(s, u, own + more)
  {
    assert s.snapshot.value.contents + own + more == s.snapshot.value.contents + (own + more);
    forall k | |s.journal| <= k < |u.journal|
      ensures u.journal[k] == Called(OnTakeSnapshot) || (u.journal[k].Sent? && u.journal[k].request.CloseSession?)
    {
      if k < |t.journal| {
        assert u.journal[k] == t.journal[k];
      }
    }
  }

  lemma FailedStands(s: AgentState, i: Input)
    requires Written(s) && s.failure.Some?
    ensures Frozen(s, Step(s, i), ServiceWrote(s, i))
  {
    if i.Close? {
      CloseFreezes(s, i);
    } else {
      FrozenAtOnce(s);
    }
  }

  /** Over any run from the write of the state on, however often the work is retried: either nothing
      has moved to the end and the publication grew by exactly what the service wrote, or that was so
      until the duty cycle that acknowledged the recording. */
  lemma {:induction false} FreezeUntilAck(s: AgentState, inputs: seq<Input>)
    requires Written(s)
    ensures Frozen(s, Run(s, inputs), ServiceWritesOver(s, inputs)) ||
            exists n :: 0 <= n < |inputs|
                        && Frozen(s, Run(s, inputs[..n]), ServiceWritesOver(s, inputs[..n])) && inputs[n].Duty?
                        && Written(Run(s, inputs[..n])) && Acknowledges(Run(s, inputs[..n]), inputs[n].cycle)
    decreases |inputs|
  {
    hide Frozen;
    hide Acknowledges, ServiceWrote;
    if |inputs| == 0 {
      FrozenAtOnce(s);
    } else {
      var init, last := inputs[..|inputs| - 1], inputs[|inputs| - 1];
      var own := ServiceWritesOver(s, init);
      FreezeUntilAck(s, init);
      if Frozen(s, Run(s, init), own) {
        var t := Run(s, init);
        FrozenStaysWritten(s, t, own);
        if t.failure.None? {
          WrittenStep(t, last);
        } else {
          FailedStands(t, last);
        }
        if Frozen(t, Step(t, last), ServiceWrote(t, last)) {
          FrozenFurther(s, t, Step(t, last), own, ServiceWrote(t, last));
        } else {
          assert inputs[..|init|] == init;
        }
      } else {
        var n :| 0 <= n < |init| && Frozen(s, Run(s, init[..n]), ServiceWritesOver(s, init[..n])) && init[n].Duty?
                 && Written(Run(s, init[..n])) && Acknowledges(Run(s, init[..n]), init[n].cycle);
        assert inputs[..n] == init[..n] && inputs[n] == init[n];
      }
    }
  }

  // ---- Written whole, and once ----

  lemma WriteStateWhole(s: AgentState, snapshot: Snapshot, c: SnapshotCycle)
    requires snapshot.contents == []
    ensures WriteState(s, snapshot, c).1.None? <==> OfferAll(StateMessages(s), c.offers).1.ALL_OFFERED?
    ensures WriteState(s, snapshot, c).1.None? ==>
              WriteState(s, snapshot, c).0 == snapshot.(recordingId := c.recordingId, contents := StateMessages(s))
  {
    var taken := OfferAll(StateMessages(s), c.offers).0;
    assert [] + taken == taken;
  }

  /** Asking the service puts its writes behind what is there. */
  lemma AskHolds(s: AgentState, c: Cycle, own: seq<SnapshotMessage>)
    requires Written(s) && s.failure.None? && SnapshotHolds(s, own)
    ensures SnapshotHolds(AskService(s, c.snapshot), own + ServiceWrote(s, Duty(c)))
    ensures AskService(s, c.snapshot).core == s.core && AskService(s, c.snapshot).config == s.config
  {
    var wrote := ServiceWrote(s, Duty(c));
    assert StateMessages(s) + own + wrote == StateMessages(s) + (own + wrote);
    assert s.snapshot.value.contents + [] == s.snapshot.value.contents;
    assert StateMessages(AskService(s, c.snapshot)) == StateMessages(s);
    hide StateMessages;
  }

  lemma AckHolds(s: AgentState, relevantId: int, results: seq<int>, own: seq<SnapshotMessage>)
    requires SnapshotHolds(s, own) && s.failure.None?
    ensures SnapshotHolds(SendAck(s, relevantId, results).0, own)
    ensures SendAck(s, relevantId, results).1 ==> SendAck(s, relevantId, results).0.failure.None?
    ensures SendAck(s, relevantId, results).0.core == s.core && SendAck(s, relevantId, results).0.config == s.config
  {
    hide TryClaim, SnapshotOf;
  }

  lemma CompleteHolds(s: AgentState, c: Cycle, own: seq<SnapshotMessage>)
    requires Written(s) && s.failure.None? && SnapshotHolds(s, own)
    ensures SnapshotHolds(CompleteSnapshot(s, c.snapshot).0, own + ServiceWrote(s, Duty(c)))
  {
    hide SnapshotHolds, ServiceWrote, SendAck;
    AskHolds(s, c, own);
    AskFreezes(s, c);
    var asked := AskService(s, c.snapshot);
    AckHolds(asked, asked.snapshot.value.recordingId.value, c.snapshot.ackClaims, own + ServiceWrote(s, Duty(c)));
  }

  /** The state with the whole of it just written. */
  function StateWritten(s: AgentState, c: SnapshotCycle): AgentState
    requires s.snapshot.Some?
  {
    s.(snapshot := Some(s.snapshot.value.(published := true, recordingId := c.recordingId,
                                          contents := StateMessages(s))))
  }

  /** A duty cycle on a snapshot whose state is not out yet writes all of it and goes on, or gets nowhere. */
  lemma FirstWrite(s: AgentState, c: Cycle, own: seq<SnapshotMessage>)
    requires s.snapshot.Some? && s.failure.None? && SnapshotHolds(s, own) && s.snapshot.value.recordingId.None?
    ensures if StateIsOut(s, c.snapshot)
            then SnapshotWork(s, c.snapshot) == CompleteSnapshot(StateWritten(s, c.snapshot), c.snapshot)
            else !SnapshotWork(s, c.snapshot).1
                 && SnapshotHolds(SnapshotWork(s, c.snapshot).0, [])
                 && ServiceWrote(s, Duty(c)) == []
  {
    hide OfferAll, StateMessages;
    WriteStateWhole(s, s.snapshot.value.(published := true), c.snapshot);
  }

  lemma WrittenHolds(s: AgentState, c: Cycle)
    requires s.snapshot.Some? && s.failure.None? && c.snapshot.recordingId.Some?
    ensures Written(StateWritten(s, c.snapshot)) && SnapshotHolds(StateWritten(s, c.snapshot), [])
    ensures s.snapshot.value.recordingId.None? && StateIsOut(s, c.snapshot) ==>
              ServiceWrote(StateWritten(s, c.snapshot), Duty(c)) == ServiceWrote(s, Duty(c))
  {
    hide OfferAll;
    assert StateMessages(StateWritten(s, c.snapshot)) == StateMessages(s);
    hide StateMessages;
    assert StateMessages(s) + [] == StateMessages(s);
  }

  lemma SnapshotWorkHolds(s: AgentState, c: Cycle, own: seq<SnapshotMessage>)
    requires s.snapshot.Some? && s.failure.None? && SnapshotHolds(s, own)
    ensures SnapshotHolds(SnapshotWork(s, c.snapshot).0, own + ServiceWrote(s, Duty(c)))
  {
    if s.snapshot.value.recordingId.Some? {
      WrittenWork(s, c.snapshot);
      CompleteHolds(s, c, own);
    } else {
      assert own == [];
      hide SnapshotHolds, ServiceWrote, SnapshotWork, CompleteSnapshot;
      FirstWrite(s, c, own);
      if StateIsOut(s, c.snapshot) {
        WrittenHolds(s, c);
        CompleteHolds(StateWritten(s, c.snapshot), c, []);
      }
    }
  }

  /** Every run keeps it: whenever a snapshot's recording is known, its publication is exactly BEGIN,
      one record for each session, END, of the state as it stands, and then what the service wrote. */
  lemma {:induction false} RunKeepsSnapshot(s: AgentState, inputs: seq<Input>)
    requires SnapshotHolds(s, [])
    ensures SnapshotHolds(Run(s, inputs), OwnWrites(s, inputs))
    decreases |inputs|
  {
    hide SnapshotHolds, Step, ServiceWrote, StartsAnew;
    if |inputs| > 0 {
      var init, last := inputs[..|inputs| - 1], inputs[|inputs| - 1];
      RunKeepsSnapshot(s, init);
      StepKeepsSnapshot(Run(s, init), last, OwnWrites(s, init));
    }
  }

  lemma IdleHolds(s: AgentState)
    requires Idle(s)
    ensures SnapshotHolds(s, [])
  {
  }

  lemma CloseHolds(s: AgentState, i: Input, own: seq<SnapshotMessage>)
    requires i.Close? && SnapshotHolds(s, own)
    ensures SnapshotHolds(Step(s, i), own)
  {
    hide TryClaim, SnapshotOf;
  }

  lemma StepKeepsSnapshot(s: AgentState, i: Input, own: seq<SnapshotMessage>)
    requires SnapshotHolds(s, own)
    ensures SnapshotHolds(Step(s, i), if StartsAnew(s, i) then [] else own + ServiceWrote(s, i))
  {
    hide SnapshotHolds, SnapshotWork, PollAll, Idle;
    assert own + [] == own;
    if i.Close? {
      CloseHolds(s, i, own);
    } else if s.failure.None? {
      if s.snapshot.Some? {
        var (worked, done) := SnapshotWork(s, i.cycle.snapshot);
        SnapshotWorkHolds(s, i.cycle, own);
        if done {
          NoSnapshotIdle(worked.(snapshot := None));
          PollAllStaysIdle(worked.(snapshot := None), i.cycle);
          IdleHolds(PollAll(worked.(snapshot := None), i.cycle));
        }
      } else {
        NoSnapshotIdle(s);
        PollAllStaysIdle(s, i.cycle);
        IdleHolds(PollAll(s, i.cycle));
      }
    }
  }

  lemma NoSnapshotIdle(s: AgentState)
    requires s.snapshot.None?
    ensures Idle(s)
  {
  }

  // ---- What one cycle does ----

  /** A snapshot is acknowledged in exactly the cycle in which its state is out, the service's own part of it
      is complete, its recording has caught up, and the claim of the ack is granted. */
  lemma AcknowledgesExactly(s: AgentState, c: SnapshotCycle)
    requires s.snapshot.Some?
    ensures SnapshotWork(s, c).1 <==> ServicePartDone(s, c) && c.recorded && TryClaim(c.ackClaims) == CLAIMED
  {
    hide OfferAll, SnapshotOf, TryClaim;
  }

  /** The exception a cycle ends in while there is a snapshot under way: the archive's, the publication's
      while the state is offered to it, or that of the consensus module's publication. */
  function WorkFailure(s: AgentState, c: SnapshotCycle): Option<Failure>
    requires s.snapshot.Some?
  {
    var ending := OfferAll(StateMessages(s), c.offers).1;
    if ArchiveErrs(s, c) then Some(ArchiveRefused)
    else if Writes(s, c) && ending.OFFER_REFUSED? then Some(PublicationState(ending.result))
    else if Writes(s, c) && ending.OFFERING? then Some(StillOffering)
    else if ServicePartDone(s, c) && c.recorded && TryClaim(c.ackClaims).REFUSED?
    then Some(PublicationState(TryClaim(c.ackClaims).result))
    else None
  }

  /** What a cycle makes of a snapshot under way: the publication and the recording are found once, the
      service is called once a cycle from when the state is out until it says it is complete, and nothing
      else happens but the ack. */
  ghost predicate WorkedTo(s: AgentState, c: SnapshotCycle, t: AgentState, acked: bool)
    requires s.snapshot.Some?
  {
    && StandsStill(s.(ackId := t.ackId, requestedAckPosition := t.requestedAckPosition), t)
    && t.snapshot.Some? && t.closing == s.closing && t.failure == WorkFailure(s, c)
    && var before, after := s.snapshot.value, t.snapshot.value;
    && (after.published <==> before.published || c.publicationFound)
    && after.recordingId == (if Writes(s, c) then c.recordingId else before.recordingId)
    && (after.complete <==> before.complete || ServicePartDone(s, c))
    && (acked ==> after.recordingId.Some?)
    && t.journal == s.journal
                    + (if StateIsOut(s, c) && !before.complete then [Called(OnTakeSnapshot)] else [])
                    + (if acked then [Sent(RecordingAck(s, after.recordingId.value))] else [])
    && t.ackId == (if acked then s.ackId + 1 else s.ackId)
    && t.requestedAckPosition ==
       if acked && after.recordingId == Some(NULL_VALUE) then NULL_POSITION else s.requestedAckPosition
  }

  /** From where the state is out on. */
  ghost predicate CompletedTo(s: AgentState, c: SnapshotCycle, t: AgentState, acked: bool)
    requires s.snapshot.Some? && s.snapshot.value.recordingId.Some?
  {
    var snapshot, claim := s.snapshot.value, TryClaim(c.ackClaims);
    var ready := (snapshot.complete || c.serviceDone) && c.recorded;
    && StandsStill(s.(ackId := t.ackId, requestedAckPosition := t.requestedAckPosition), t)
    && t.snapshot.Some? && t.closing == s.closing
    && t.failure == (if ready && claim.REFUSED? then Some(PublicationState(claim.result)) else None)
    && t.snapshot.value.published == snapshot.published && t.snapshot.value.recordingId == snapshot.recordingId
    && (t.snapshot.value.complete <==> snapshot.complete || c.serviceDone)
    && (acked <==> ready && claim == CLAIMED)
    && t.journal == s.journal + (if snapshot.complete then [] else [Called(OnTakeSnapshot)])
                    + (if acked then [Sent(RecordingAck(s, snapshot.recordingId.value))] else [])
    && t.ackId == (if acked then s.ackId + 1 else s.ackId)
    && t.requestedAckPosition ==
       if acked && snapshot.recordingId == Some(NULL_VALUE) then NULL_POSITION else s.requestedAckPosition
  }

  lemma CompletesExactly(s: AgentState, c: SnapshotCycle)
    requires s.snapshot.Some? && s.snapshot.value.recordingId.Some? && s.failure.None?
    ensures CompletedTo(s, c, CompleteSnapshot(s, c).0, CompleteSnapshot(s, c).1)
  {
    hide TryClaim;
    var called := if s.snapshot.value.complete then [] else [Called(OnTakeSnapshot)];
    assert s.journal + [] == s.journal && s.journal + called + [] == s.journal + called;
  }

  /** The state as of when it is out: written now, or before. */
  function OutNow(s: AgentState, c: SnapshotCycle): AgentState
    requires s.snapshot.Some?
  {
    var snapshot := s.snapshot.value.(published := true);
    s.(snapshot := Some(if Writes(s, c) then WriteState(s, snapshot, c).0 else snapshot))
  }

  lemma OutCompletes(s: AgentState, c: SnapshotCycle)
    requires s.snapshot.Some? && StateIsOut(s, c)
    ensures var out := OutNow(s, c);
            && out.snapshot.Some? && out.snapshot.value.recordingId.Some?
            && SnapshotWork(s, c) == CompleteSnapshot(out, c)
            && out.snapshot.value.published && out.snapshot.value.complete == s.snapshot.value.complete
            && out.snapshot.value.recordingId == (if Writes(s, c) then c.recordingId else s.snapshot.value.recordingId)
            && out == s.(snapshot := out.snapshot)
  {
    hide OfferAll, SnapshotOf, CompleteSnapshot;
  }

  lemma OutWorksExactly(s: AgentState, c: SnapshotCycle)
    requires s.snapshot.Some? && s.failure.None? && StateIsOut(s, c)
    ensures WorkedTo(s, c, SnapshotWork(s, c).0, SnapshotWork(s, c).1)
  {
    OutCompletes(s, c);
    hide OutNow, SnapshotWork, CompleteSnapshot, OfferAll, StateMessages, TryClaim;
    CompletesExactly(OutNow(s, c), c);
  }

  lemma UnwrittenWorksExactly(s: AgentState, c: SnapshotCycle)
    requires s.snapshot.Some? && s.failure.None? && !StateIsOut(s, c)
    ensures WorkedTo(s, c, SnapshotWork(s, c).0, SnapshotWork(s, c).1)
  {
    hide OfferAll, SnapshotOf, CompleteSnapshot, TryClaim;
    assert s.journal + [] + [] == s.journal;
  }

  lemma WorksExactly(s: AgentState, c: SnapshotCycle)
    requires s.snapshot.Some? && s.failure.None?
    ensures WorkedTo(s, c, SnapshotWork(s, c).0, SnapshotWork(s, c).1)
  {
    hide WorkedTo, StateIsOut, SnapshotWork;
    if StateIsOut(s, c) {
      OutWorksExactly(s, c);
    } else {
      UnwrittenWorksExactly(s, c);
    }
  }

  /** The service has said, in a cycle of the run, that its part of the snapshot under way at its end is
      complete. */
  ghost predicate ServiceFinished(s: AgentState, inputs: seq<Input>)
  {
    |inputs| > 0 &&
    var init, last := inputs[..|inputs| - 1], inputs[|inputs| - 1];
    var t := Run(s, init);
    !StartsAnew(t, last) &&
    (ServiceFinished(s, init)
     || (last.Duty? && t.failure.None? && t.snapshot.Some?
         && StateIsOut(t, last.cycle.snapshot) && last.cycle.snapshot.serviceDone))
  }

  ghost predicate CompleteIff(s: AgentState, finished: bool)
  {
    s.snapshot.Some? ==> (s.snapshot.value.complete <==> finished)
  }

  lemma StepCompletes(s: AgentState, i: Input, finished: bool)
    requires CompleteIff(s, finished)
    ensures CompleteIff(Step(s, i), !StartsAnew(s, i) &&
                                    (|| finished
                                     || (i.Duty? && s.failure.None? && s.snapshot.Some?
                                         && StateIsOut(s, i.cycle.snapshot) && i.cycle.snapshot.serviceDone)))
  {
    hide SnapshotWork, PollAll, TryClaim, StateIsOut;
    if i.Duty? && s.failure.None? {
      if StartsAnew(s, i) {
        var idle := if s.snapshot.Some? then SnapshotWork(s, i.cycle.snapshot).0.(snapshot := None) else s;
        PollAllStaysIdle(idle, i.cycle);
        assert Step(s, i) == PollAll(idle, i.cycle);
      } else {
        WorksExactly(s, i.cycle.snapshot);
      }
    }
  }

  /** The service's part of a snapshot is taken for complete if and only if the service has said so. */
  lemma {:induction false} CompleteIsFinished(s: AgentState, inputs: seq<Input>)
    requires Idle(s)
    ensures CompleteIff(Run(s, inputs), ServiceFinished(s, inputs))
    decreases |inputs|
  {
    hide CompleteIff, Step, StateIsOut, StartsAnew;
    if |inputs| > 0 {
      var init := inputs[..|inputs| - 1];
      CompleteIsFinished(s, init);
      StepCompletes(Run(s, init), inputs[|inputs| - 1], ServiceFinished(s, init));
    } else {
      NothingFinished(s);
    }
  }

  lemma NothingFinished(s: AgentState)
    requires Idle(s)
    ensures CompleteIff(s, false)
  {
  }

  // ---- What is acknowledged ----

  /** The publication as the duty cycle leaves it that acknowledges the recording. */
  function Acknowledged(s: AgentState, c: Cycle): seq<SnapshotMessage>
    requires s.snapshot.Some?
  {
    var worked := SnapshotWork(s, c.snapshot).0;
    if worked.snapshot.Some? then worked.snapshot.value.contents else []
  }

  /** The ack is the last thing the snapshot does. */
  ghost predicate AckedLast(s: AgentState, worked: AgentState, recordingId: int)
  {
    && worked.core == s.core && |worked.journal| > |s.journal| && s.journal <= worked.journal
    && worked.journal[|worked.journal| - 1] == Sent(RecordingAck(s, recordingId))
  }

  lemma WrittenIsAckedLast(s: AgentState, c: Cycle)
    requires Written(s) && s.failure.None? && CompleteSnapshot(s, c.snapshot).1
    ensures AckedLast(s, CompleteSnapshot(s, c.snapshot).0, s.snapshot.value.recordingId.value)
    ensures CompleteSnapshot(s, c.snapshot).0.failure.None? && Written(CompleteSnapshot(s, c.snapshot).0)
    ensures CompleteSnapshot(s, c.snapshot).0.config == s.config
  {
    hide TryClaim;
    AskCallsOnly(s, c.snapshot);
  }

  /** In any run, the duty cycle that acknowledges a recording, be it the one that wrote the state or a
      later one, leaves in the publication exactly BEGIN, one record for each session in order, END, and
      then what the service wrote; BEGIN, END and the ack all carry the same log position; and BEGIN the
      term of the moment. The service has said that its part is complete, and the recording has caught up. */
  lemma AcknowledgedWhole(s: AgentState, inputs: seq<Input>, c: Cycle)
    requires Idle(s)
    requires Run(s, inputs).failure.None? && Run(s, inputs).snapshot.Some? && SnapshotWork(Run(s, inputs), c.snapshot).1
    ensures var t := Run(s, inputs);
            var worked := SnapshotWork(t, c.snapshot).0;
            var p, term, version := t.core.logPosition, t.core.leadershipTermId, t.config.appVersion;
            && Acknowledged(t, c) ==
                 ([Marker(BEGIN, p, term, version)] + Records(t.core.table.sessions) + [Marker(END, p, term, version)])
                 + (OwnWrites(s, inputs) + ServiceWrote(t, Duty(c)))
            && Written(worked) && |worked.journal| > |t.journal| && t.journal <= worked.journal && worked.core == t.core
            && worked.journal[|worked.journal| - 1] ==
                 Sent(ServiceAck(p, t.core.clusterTime, t.ackId, worked.snapshot.value.recordingId.value,
                                 t.config.serviceId))
            && DoWork(t, c) == PollAll(worked.(snapshot := None), c)
            && c.snapshot.recorded && (ServiceFinished(s, inputs) || c.snapshot.serviceDone)
            && TryClaim(c.snapshot.ackClaims) == CLAIMED
  {
    var t, own := Run(s, inputs), OwnWrites(s, inputs);
    IdleHolds(s);
    RunKeepsSnapshot(s, inputs);
    CompleteIsFinished(s, inputs);
    AcknowledgesExactly(t, c.snapshot);
    hide Run, OwnWrites, Idle, Records, StateIsOut, TryClaim, ServiceFinished;
    SnapshotWorkHolds(t, c, own);
    AcknowledgedByWork(t, c, own);
    hide ServiceWrote, SnapshotWork;
  }

  lemma AcknowledgedByWork(t: AgentState, c: Cycle, own: seq<SnapshotMessage>)
    requires t.failure.None? && t.snapshot.Some? && SnapshotWork(t, c.snapshot).1 && SnapshotHolds(t, own)
    ensures var worked := SnapshotWork(t, c.snapshot).0;
            && worked.failure.None? && Written(worked)
            && worked.config == t.config
            && AckedLast(t, worked, worked.snapshot.value.recordingId.value)
  {
    hide ServiceWrote, Records;
    if t.snapshot.value.recordingId.Some? {
      WrittenWork(t, c.snapshot);
      WrittenIsAckedLast(t, c);
      SameRecording(t, c);
    } else {
      FirstWrite(t, c, own);
      WrittenHolds(t, c);
      WrittenIsAckedLast(StateWritten(t, c.snapshot), c);
      SameRecording(StateWritten(t, c.snapshot), c);
    }
  }

  lemma SameRecording(s: AgentState, c: Cycle)
    requires Written(s) && s.failure.None?
    ensures Written(CompleteSnapshot(s, c.snapshot).0)
    ensures CompleteSnapshot(s, c.snapshot).0.snapshot.value.recordingId == s.snapshot.value.recordingId
  {
    hide TryClaim;
  }

  // ---- An exception that does not end the agent ----

  /** What a refused offer leaves, with the failure forgotten. */
  function Forgiven(s: AgentState, first: SnapshotCycle): AgentState
    requires s.snapshot.Some?
  {
    SnapshotWork(s, first).0.(failure := None)
  }

  /** Input `n` acknowledges the recording: it holds what had been taken and then what the service wrote,
      which starts with the state only if the service itself happens to write what is missing of it. */
  ghost predicate AcknowledgesTorn(state: seq<SnapshotMessage>, taken: seq<SnapshotMessage>, torn: AgentState,
                                   inputs: seq<Input>, n: nat)
    requires taken <= state
  {
    n < |inputs| && inputs[n].Duty? &&
    var t, c := Run(torn, inputs[..n]), inputs[n].cycle;
    var own := ServiceWritesOver(torn, inputs[..n]) + ServiceWrote(t, inputs[n]);
    && Written(t) && SnapshotWork(t, c.snapshot).1
    && Acknowledged(t, c) == taken + own
    && (state <= Acknowledged(t, c) <==> state[|taken|..] <= own)
  }

  lemma RefusedWork(s: AgentState, first: SnapshotCycle)
    requires s.snapshot == Some(NEW_SNAPSHOT) && s.failure.None?
    requires first.publicationFound && first.recordingId.Some? && !first.archiveRefuses
             && OfferAll(StateMessages(s), first.offers).1.OFFER_REFUSED?
    ensures var offered := OfferAll(StateMessages(s), first.offers);
            SnapshotWork(s, first).0 == s.(snapshot := Some(Snapshot(true, first.recordingId, false, offered.0)),
                                           failure := Some(PublicationState(offered.1.result)))
  {
    assert [] + OfferAll(StateMessages(s), first.offers).0 == OfferAll(StateMessages(s), first.offers).0;
  }

  lemma PrefixBehind(head: seq<SnapshotMessage>, xs: seq<SnapshotMessage>, ys: seq<SnapshotMessage>)
    ensures head + xs <= head + ys <==> xs <= ys
  {
    if head + xs <= head + ys {
      assert forall k | 0 <= k < |xs| :: xs[k] == (head + xs)[|head| + k] && ys[k] == (head + ys)[|head| + k];
    }
    if xs <= ys {
      assert head + ys == head + xs + ys[|xs|..];
    }
  }

  lemma ForgivenIsTorn(s: AgentState, first: SnapshotCycle)
    requires s.snapshot == Some(NEW_SNAPSHOT) && s.failure.None?
    requires first.publicationFound && first.recordingId.Some? && !first.archiveRefuses
             && OfferAll(StateMessages(s), first.offers).1.OFFER_REFUSED?
    ensures var taken := OfferAll(StateMessages(s), first.offers).0;
            && |taken| < |StateMessages(s)| && taken <= StateMessages(s)
            && Written(Forgiven(s, first)) && Forgiven(s, first).failure.None?
            && Forgiven(s, first).snapshot.value.contents == taken
  {
    hide SnapshotOf;
    RefusedWork(s, first);
    hide StateMessages, SnapshotWork;
  }

  lemma TornAt(state: seq<SnapshotMessage>, torn: AgentState, inputs: seq<Input>, n: nat)
    requires Written(torn) && torn.snapshot.value.contents <= state && n < |inputs| && inputs[n].Duty?
    requires var t := Run(torn, inputs[..n]);
             Frozen(torn, t, ServiceWritesOver(torn, inputs[..n])) && Acknowledges(t, inputs[n].cycle)
    ensures AcknowledgesTorn(state, torn.snapshot.value.contents, torn, inputs, n)
  {
    hide SnapshotWork, ServiceWrote, ServiceWritesOver, Run, DoWork, PollAll;
    var t, c := Run(torn, inputs[..n]), inputs[n].cycle;
    var taken := torn.snapshot.value.contents;
    var before, last := ServiceWritesOver(torn, inputs[..n]), ServiceWrote(t, inputs[n]);
    assert taken + before + last == taken + (before + last);
    assert state == taken + state[|taken|..];
    PrefixBehind(taken, state[|taken|..], before + last);
  }

  /** The service is done, the recording has caught up, and the ack will be claimed. */
  predicate Ready(i: Input)
  {
    i.Duty? && i.cycle.snapshot.serviceDone && i.cycle.snapshot.recorded
    && TryClaim(i.cycle.snapshot.ackClaims).CLAIMED?
  }

  lemma ReadyIsDone(s: AgentState, i: Input)
    requires Written(s) && s.failure.None? && Ready(i)
    ensures SnapshotWork(s, i.cycle.snapshot).1
  {
    hide StateMessages;
  }

  lemma TornAtOnce(state: seq<SnapshotMessage>, torn: AgentState, inputs: seq<Input>)
    requires Written(torn) && torn.failure.None? && torn.snapshot.value.contents <= state
    requires inputs != [] && Ready(inputs[0])
    ensures AcknowledgesTorn(state, torn.snapshot.value.contents, torn, inputs, 0)
  {
    ReadyIsDone(torn, inputs[0]);
    WrittenAck(torn, inputs[0].cycle);
    FrozenAtOnce(torn);
    assert inputs[..0] == [];
    assert Run(torn, []) == torn && ServiceWritesOver(torn, []) == [];
    hide Frozen, Acknowledges, AcknowledgesTorn, SnapshotWork, Ready;
    TornAt(state, torn, inputs, 0);
  }

  /** If an offer is refused while the state is written, the exception must be the end of the agent: were
      it run on, however its work is retried, it would never write what is missing. Nothing moves until
      a duty cycle acknowledges the torn recording; and the first one in which the service and the
      recording are done does. */
  lemma RetryAcknowledgesTornSnapshot(s: AgentState, first: SnapshotCycle, inputs: seq<Input>)
    requires s.snapshot == Some(NEW_SNAPSHOT) && s.failure.None?
    requires first.publicationFound && first.recordingId.Some? && !first.archiveRefuses
             && OfferAll(StateMessages(s), first.offers).1.OFFER_REFUSED?
    ensures var state, taken, torn := StateMessages(s), OfferAll(StateMessages(s), first.offers).0, Forgiven(s, first);
            && |taken| < |state| && taken <= state && Written(torn) && torn.snapshot.value.contents == taken
            && (Frozen(torn, Run(torn, inputs), ServiceWritesOver(torn, inputs))
                || exists n :: AcknowledgesTorn(state, taken, torn, inputs, n))
            && (inputs != [] && Ready(inputs[0]) ==> AcknowledgesTorn(state, taken, torn, inputs, 0))
  {
    var state, torn := StateMessages(s), Forgiven(s, first);
    ForgivenIsTorn(s, first);
    hide StateMessages, OfferAll, Forgiven, Frozen, Acknowledges, AcknowledgesTorn, ServiceWrote, Ready, Run;
    hide ServiceWritesOver;
    FreezeUntilAck(torn, inputs);
    if n :| && 0 <= n < |inputs|
            && Frozen(torn, Run(torn, inputs[..n]), ServiceWritesOver(torn, inputs[..n])) && inputs[n].Duty?
            && Written(Run(torn, inputs[..n])) && Acknowledges(Run(torn, inputs[..n]), inputs[n].cycle) {
      TornAt(state, torn, inputs, n);
    }
    if inputs != [] && Ready(inputs[0]) {
      TornAtOnce(state, torn, inputs);
    }
  }
}
