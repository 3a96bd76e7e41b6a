/** A position the consensus module asked to have acknowledged stops being pending only by an ack. */
module PendingAcks {
  import opened Aeron
  import opened ReplicatedState
  import opened Reassembly
  import opened Publications
  import opened AgentSpec

  predicate IsPlainAck(n: Note) { n.Sent? && n.request.ServiceAck? && n.request.relevantId == NULL_VALUE }

  ghost predicate AckedSince(journal: seq<Note>, n: nat)
  {
    exists k :: n <= k < |journal| && IsPlainAck(journal[k])
  }

  predicate IsAckAt(n: Note, position: int) { n.Sent? && n.request.ServiceAck? ==> n.request.logPosition == position }

  /** The journal only grew; a pending position that is pending no more was acknowledged, unless the
      request was withdrawn; and all that was acknowledged carries one log position. */
  ghost predicate Progress(s: AgentState, t: AgentState, position: int, withdrawn: bool)
  {
    && s.journal <= t.journal
    && (s.requestedAckPosition != NULL_POSITION && t.requestedAckPosition == NULL_POSITION ==>
          withdrawn || AckedSince(t.journal, |s.journal|))
    && forall k | |s.journal| <= k < |t.journal| :: IsAckAt(t.journal[k], position)
  }

  lemma ProgressFurther(s: AgentState, t: AgentState, u: AgentState, position: int, withdrawn: bool)
    requires Progress(s, t, position, withdrawn) && Progress(t, u, position, withdrawn)
    ensures Progress(s, u, position, withdrawn)
  {
    if AckedSince(t.journal, |s.journal|) {
      var k :| |s.journal| <= k < |t.journal| && IsPlainAck(t.journal[k]);
      assert IsPlainAck(u.journal[k]);
    }
    forall k | |s.journal| <= k < |u.journal| ensures IsAckAt(u.journal[k], position) {
      assert k < |t.journal| ==> u.journal[k] == t.journal[k];
    }
  }

  /** Changes that send nothing. */
  ghost predicate Quiet(s: AgentState, t: AgentState)
  {
    && s.journal <= t.journal && t.requestedAckPosition == s.requestedAckPosition
    && forall k | |s.journal| <= k < |t.journal| :: !t.journal[k].Sent?
  }

  lemma QuietProgress(s: AgentState, t: AgentState, position: int, withdrawn: bool)
    requires Quiet(s, t)
    ensures Progress(s, t, position, withdrawn)
  {
  }

  lemma SendAckProgress(s: AgentState, relevantId: int, results: seq<int>, withdrawn: bool)
    ensures Progress(s, SendAck(s, relevantId, results).0, s.core.logPosition, withdrawn)
    ensures SendAck(s, relevantId, results).0.core == s.core
  {
    var t := SendAck(s, relevantId, results).0;
    if TryClaim(results).CLAIMED? && relevantId == NULL_VALUE {
      assert IsPlainAck(t.journal[|s.journal|]);
    }
  }

  lemma FragmentQuiet(s: AgentState, f: Frame, accepts: bool, image: Option<Image>)
    ensures Quiet(s, OnFragment(s, f, accepts).0) && Quiet(s, OnFragment(s, f, accepts).0.(image := image))
  {
  }

  lemma {:induction false} PollProgress(s: AgentState, limit: int, available: nat, fragments: nat, accepts: nat,
                                        position: int, withdrawn: bool)
    requires s.image.Some?
    ensures Progress(s, Poll(s, limit, available, fragments, accepts).0, position, withdrawn)
    decreases fragments
  {
    hide Progress, Quiet;
    var image := s.image.value;
    if !(|| fragments == 0 || image.consumed >= available || image.consumed >= |image.frames|
         || Position(image) >= limit) {
      var f := image.frames[image.consumed];
      var (next, action) := OnFragment(s, f, accepts > 0);
      FragmentQuiet(s, f, accepts > 0, Some(image.(consumed := image.consumed + 1)));
      QuietProgress(s, next, position, withdrawn);
      if action != ABORT && action != THROWN {
        var moved := next.(image := Some(image.(consumed := image.consumed + 1)));
        var left := if Offered(s.builder, f).Some? then accepts - 1 else accepts;
        PollProgress(moved, limit, available, fragments - 1, left, position, withdrawn);
        QuietProgress(s, moved, position, withdrawn);
        ProgressFurther(s, moved, Poll(moved, limit, available, fragments - 1, left).0, position, withdrawn);
      }
    } else {
      NothingDone(s);
      QuietProgress(s, s, position, withdrawn);
    }
  }

  lemma NothingDone(s: AgentState)
    ensures Quiet(s, s)
  {
  }

  lemma PollLogProgress(s: AgentState, c: Cycle, position: int, withdrawn: bool)
    ensures Progress(s, PollLog(s, c), position, withdrawn)
  {
    hide Progress;
    if s.image.Some? {
      var available := if c.imageClosed then 0 else c.available;
      var read := Poll(s, c.commitPosition, available, s.config.fragmentLimit, c.accepts).0;
      PollProgress(s, c.commitPosition, available, s.config.fragmentLimit, c.accepts, position, withdrawn);
      QuietProgress(read, CloseLog(read), position, withdrawn);
      ProgressFurther(s, read, CloseLog(read), position, withdrawn);
    } else {
      QuietProgress(s, s, position, withdrawn);
    }
  }

  lemma JoinProgress(s: AgentState, c: Cycle, withdrawn: bool)
    requires s.activeLog.Some?
    ensures Progress(s, JoinActiveLog(s, c).0, s.core.logPosition, withdrawn) && JoinActiveLog(s, c).0.core == s.core
  {
    hide Progress, SendAck, ResolveJoin;
    var a := ResolveJoin(s.activeLog.value, c);
    var t := JoinActiveLog(s, c).0;
    var position := s.core.logPosition;
    if Resolved(a) && a.image.value.joinPosition == position && a.logPosition == position {
      var joined := s.(image := a.image, maxLogPosition := a.maxLogPosition,
                       activeLog := Some(a.(subscribed := false)));
      var acked := SendAck(joined, NULL_VALUE, c.joinClaims).0;
      QuietProgress(s, joined, position, withdrawn);
      SendAckProgress(joined, NULL_VALUE, c.joinClaims, withdrawn);
      ProgressFurther(s, joined, acked, position, withdrawn);
      QuietProgress(acked, t, position, withdrawn);
      ProgressFurther(s, acked, t, position, withdrawn);
    } else {
      QuietProgress(s, t, position, withdrawn);
    }
  }

  lemma AdapterProgress(s: AgentState, c: Cycle, withdrawn: bool)
    requires withdrawn <==> c.adapterMessage == RequestServiceAck(NULL_POSITION)
    ensures Progress(s, PollServiceAdapter(s, c), s.core.logPosition, withdrawn)
  {
    var told := OnAdapterMessage(s.(journal := s.journal + [AdapterPolled(c.nowNs)]), c.adapterMessage);
    var position := s.core.logPosition;
    assert Progress(s, told, position, withdrawn) && told.core == s.core;
    hide Progress;
    if told.failure.None? {
      if told.activeLog.Some? && told.image.None? {
        var (joining, joined) := JoinActiveLog(told, c);
        JoinProgress(told, c, withdrawn);
        ProgressFurther(s, told, joining, position, withdrawn);
        QuietProgress(joining, joining.(activeLog := None), position, withdrawn);
        ProgressFurther(s, joining, joining.(activeLog := None), position, withdrawn);
        SendAckProgress(joining, NULL_VALUE, c.requestClaims, withdrawn);
        ProgressFurther(s, joining, SendAck(joining, NULL_VALUE, c.requestClaims).0, position, withdrawn);
      } else {
        SendAckProgress(told, NULL_VALUE, c.requestClaims, withdrawn);
        ProgressFurther(s, told, SendAck(told, NULL_VALUE, c.requestClaims).0, position, withdrawn);
      }
    }
  }

  lemma PollAllProgress(s: AgentState, c: Cycle, withdrawn: bool)
    requires withdrawn <==> c.adapterMessage == RequestServiceAck(NULL_POSITION)
    ensures Progress(s, PollAll(s, c), s.core.logPosition, withdrawn)
  {
    hide Progress, PollServiceAdapter, PollLog;
    var (clock, ticked) := CheckForClockTick(s, c);
    var position := s.core.logPosition;
    QuietProgress(s, clock, position, withdrawn);
    AdapterProgress(clock, c, withdrawn);
    ProgressFurther(s, clock, PollServiceAdapter(clock, c), position, withdrawn);
    var told := if ticked then PollServiceAdapter(clock, c) else clock;
    PollLogProgress(told, c, position, withdrawn);
    ProgressFurther(s, told, PollLog(told, c), position, withdrawn);
  }

  lemma AskQuiet(s: AgentState, c: SnapshotCycle)
    requires s.snapshot.Some?
    ensures Quiet(s, AskService(s, c)) && AskService(s, c).core == s.core
  {
  }

  lemma SnapshotProgress(s: AgentState, c: SnapshotCycle, withdrawn: bool)
    requires s.snapshot.Some?
    ensures Progress(s, SnapshotWork(s, c).0, s.core.logPosition, withdrawn) && SnapshotWork(s, c).0.core == s.core
  {
    hide Progress, AskService;
    var t := SnapshotWork(s, c).0;
    var position := s.core.logPosition;
    var snapshot := s.snapshot.value.(published := true);
    if && (s.snapshot.value.published || c.publicationFound) && (snapshot.recordingId.Some? || c.recordingId.Some?)
       && !ArchiveThrows(s.snapshot.value, c) {
      var writing := if snapshot.recordingId.None? then WriteState(s, snapshot, c) else (snapshot, None);
      if writing.1.None? {
        var written := s.(snapshot := Some(writing.0));
        var asked := AskService(written, c);
        AskQuiet(written, c);
        AskKeepsRecording(written, c);
        assert Quiet(s, asked);
        hide Quiet;
        QuietProgress(s, asked, position, withdrawn);
        SendAckProgress(asked, writing.0.recordingId.value, c.ackClaims, withdrawn);
        ProgressFurther(s, asked, SendAck(asked, writing.0.recordingId.value, c.ackClaims).0, position, withdrawn);
      } else {
        QuietProgress(s, t, position, withdrawn);
      }
    } else {
      QuietProgress(s, t, position, withdrawn);
    }
  }

  lemma AskKeepsRecording(s: AgentState, c: SnapshotCycle)
    requires s.snapshot.Some?
    ensures AskService(s, c).snapshot.Some?
    ensures AskService(s, c).snapshot.value.recordingId == s.snapshot.value.recordingId
  {
  }

  /** A duty cycle never takes back what was done; unless the request itself is withdrawn, a pending
      position stops being pending only when an ack without a relevant id is published; and whatever
      the cycle acknowledges, it does at the log position it started from. */
  lemma OnlyAcksClear(s: AgentState, c: Cycle)
    ensures s.journal <= DoWork(s, c).journal
    ensures s.requestedAckPosition != NULL_POSITION && DoWork(s, c).requestedAckPosition == NULL_POSITION ==>
              c.adapterMessage == RequestServiceAck(NULL_POSITION) || AckedSince(DoWork(s, c).journal, |s.journal|)
    ensures forall k | |s.journal| <= k < |DoWork(s, c).journal| :: IsAckAt(DoWork(s, c).journal[k], s.core.logPosition)
  {
    var withdrawn := c.adapterMessage == RequestServiceAck(NULL_POSITION);
    assert Progress(s, DoWork(s, c), s.core.logPosition, withdrawn) by {
      hide Progress, PollAll, SnapshotWork;
      if s.failure.Some? {
        QuietProgress(s, s, s.core.logPosition, withdrawn);
      } else if s.snapshot.Some? {
        var worked := SnapshotWork(s, c.snapshot).0;
        SnapshotProgress(s, c.snapshot, withdrawn);
        QuietProgress(worked, worked.(snapshot := None), s.core.logPosition, withdrawn);
        ProgressFurther(s, worked, worked.(snapshot := None), s.core.logPosition, withdrawn);
        PollAllProgress(worked.(snapshot := None), c, withdrawn);
        ProgressFurther(s, worked.(snapshot := None), PollAll(worked.(snapshot := None), c), s.core.logPosition,
                        withdrawn);
      } else {
        PollAllProgress(s, c, withdrawn);
      }
    }
  }
}
