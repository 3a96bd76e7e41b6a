/** When a run of the agent ends in an event the sessions do not allow, it is the log's own fault. */
module LogFailures {
  import opened Aeron
  import opened SessionTable
  import opened ReplicatedState
  import opened Reassembly
  import opened Publications
  import opened Snapshots
  import opened AgentSpec
  import opened DutyCycles
  import opened LogViews
  import opened Tracking
  import opened Contiguity

  /** A failure that only a log event can cause. */
  predicate IsSessionFailure(failure: Option<Failure>)
  {
    failure.Some? && (failure.value.ClashingOpen? || failure.value.UnknownClose?)
  }

  /** Replaying the log from the origin fails in the same way. */
  ghost predicate FailsInLog(x: Origin, failure: Option<Failure>)
    requires OriginValid(x)
  {
    exists n :: x.from < n <= |x.log.messages| && Applied(x, n).failure == failure
  }

  lemma ThrownByMessage(s: AgentState, f: Frame, accepts: bool, d: Delivery)
    requires Offered(s.builder, f) == Some(d)
    ensures var (next, action) := OnFragment(s, f, accepts);
            action == THROWN ==> next.failure == Apply(s, s.config.decode(d.payload), d.position).failure
  {
  }

  lemma FrameFails(s: AgentState, x: Origin, p: Place, accepts: bool)
    requires Tracks(s, x, p) && MoreToRead(s, x)
    ensures var (next, action) := OnFragment(s, s.image.value.frames[s.image.value.consumed], accepts);
            OriginValid(x) && (action == THROWN ==> next.failure.Some? && FailsInLog(x, next.failure))
  {
    WhatIsTracked(s, x, p);
    hide Tracks, Follows, OnFragment, After, Offered, Apply, HasApplied, Valid, Applied, BoundOnFrames;
    NextFrameOffered(s, x, p);
    var f := s.image.value.frames[s.image.value.consumed];
    if p.frame + 1 == |x.log.messages[p.message]| {
      ThrownByMessage(s, f, accepts, MessageOf(x.log.messages[p.message]));
      AppliedFails(s, x, p.message);
      if OnFragment(s, f, accepts).1 == THROWN {
        ThrownFails(s, f, accepts);
        assert Applied(x, p.message + 1).failure == OnFragment(s, f, accepts).0.failure;
      }
    } else {
      MiddleFrameTracks(s, x, p, accepts);
    }
  }

  lemma NoFailureYet(s: AgentState, x: Origin, p: Place)
    requires Tracks(s, x, p)
    ensures OriginValid(x)
  {
  }

  lemma MoreWithin(s: AgentState, x: Origin, limit: int)
    requires s.image.Some? && s.image.value.consumed < |s.image.value.frames| && Position(s.image.value) < limit
    requires x.bound.Some? ==> limit <= x.bound.value
    ensures MoreToRead(s, x)
  {
  }

  lemma {:induction false} PollFails(s: AgentState, x: Origin, p: Place, limit: int, available: nat, fragments: nat,
                                     accepts: nat)
    requires Tracks(s, x, p) && s.image.Some? && s.failure.None? && (x.bound.Some? ==> limit <= x.bound.value)
    ensures OriginValid(x)
    ensures var t := Poll(s, limit, available, fragments, accepts).0; t.failure.Some? ==> FailsInLog(x, t.failure)
    decreases fragments
  {
    hide Tracks, OnFragment, After, Offered, NextPlace, Position, Ahead, InLog, Valid, OriginValid, FailsInLog;
    hide MoreToRead;
    NoFailureYet(s, x, p);
    var image := s.image.value;
    if !(|| fragments == 0 || image.consumed >= available || image.consumed >= |image.frames|
         || Position(image) >= limit) {
      var f := image.frames[image.consumed];
      var (next, action) := OnFragment(s, f, accepts > 0);
      MoreWithin(s, x, limit);
      FrameTracks(s, x, p, accepts > 0);
      FrameFails(s, x, p, accepts > 0);
      FailureIsThrown(s, f, accepts > 0);
      if action != ABORT && action != THROWN {
        if Offered(s.builder, f).Some? && accepts == 0 {
          UnacceptedAborts(s, f);
        }
        var left := if Offered(s.builder, f).Some? then accepts - 1 else accepts;
        PollFails(ReadOneMore(next), x, NextPlace(x.log, p), limit, available, fragments - 1, left);
      }
    }
  }

  lemma FailureIsThrown(s: AgentState, f: Frame, accepts: bool)
    requires s.failure.None?
    ensures OnFragment(s, f, accepts).0.failure.None? <==> OnFragment(s, f, accepts).1 != THROWN
  {
  }

  // ---- No other part of a duty cycle fails like that ----

  lemma AckFails(s: AgentState, relevantId: int, results: seq<int>)
    requires !IsSessionFailure(s.failure)
    ensures !IsSessionFailure(SendAck(s, relevantId, results).0.failure)
  {
  }

  lemma JoinFails(s: AgentState, c: Cycle)
    requires s.activeLog.Some? && !IsSessionFailure(s.failure)
    ensures !IsSessionFailure(JoinActiveLog(s, c).0.failure)
  {
  }

  lemma AdapterFails(s: AgentState, c: Cycle)
    requires !IsSessionFailure(s.failure)
    ensures !IsSessionFailure(PollServiceAdapter(s, c).failure)
  {
    hide JoinActiveLog, SendAck;
    var told := OnAdapterMessage(s.(journal := s.journal + [AdapterPolled(c.nowNs)]), c.adapterMessage);
    AckFails(told, NULL_VALUE, c.requestClaims);
    if told.activeLog.Some? {
      JoinFails(told, c);
      AckFails(JoinActiveLog(told, c).0, NULL_VALUE, c.requestClaims);
    }
  }

  lemma SnapshotFails(s: AgentState, c: SnapshotCycle)
    requires s.snapshot.Some? && !IsSessionFailure(s.failure)
    ensures !IsSessionFailure(SnapshotWork(s, c).0.failure)
  {
    hide OfferAll, SnapshotOf, TryClaim;
  }

  lemma PollLogFails(s: AgentState, x: Origin, p: Place, c: Cycle)
    requires Tracks(s, x, p) && s.failure.None? && (x.bound.Some? ==> c.commitPosition <= x.bound.value)
    ensures OriginValid(x) && (IsSessionFailure(PollLog(s, c).failure) ==> FailsInLog(x, PollLog(s, c).failure))
  {
    NoFailureYet(s, x, p);
    hide Tracks, OriginValid, Poll, FailsInLog, IsSessionFailure;
    if s.image.Some? {
      var available := if c.imageClosed then 0 else c.available;
      PollFails(s, x, p, c.commitPosition, available, s.config.fragmentLimit, c.accepts);
      ClosedFails(Poll(s, c.commitPosition, available, s.config.fragmentLimit, c.accepts).0);
    }
    SomeFailure(s.failure);
    SomeFailure(PollLog(s, c).failure);
  }

  lemma SomeFailure(failure: Option<Failure>)
    ensures IsSessionFailure(failure) ==> failure.Some?
  {
  }

  lemma ClosedFails(s: AgentState)
    ensures s.image.Some? ==> CloseLog(s).failure == s.failure
  {
  }

  lemma PollAllFails(s: AgentState, x: Origin, p: Place, c: Cycle)
    requires Tracks(s, x, p) && Valid(x.log) && s.failure.None? && InputFits(Duty(c), x)
    requires x.inside && PollsAdapter(s, c) && c.adapterMessage.JoinLog? ==> CalmDrop(s, x)
    ensures OriginValid(x) && (IsSessionFailure(PollAll(s, c).failure) ==> FailsInLog(x, PollAll(s, c).failure))
  {
    TracksLog(s, x, p);
    hide Tracks, Valid, OriginValid, PollServiceAdapter, PollLog, FailsInLog, SeesViews, LogCallbacks, Near;
    var (clock, ticked) := CheckForClockTick(s, c);
    if clock.failure.None? {
      ClockSameTrack(s, c);
      SameTracks(s, clock, x, p);
      var told := if ticked then PollServiceAdapter(clock, c) else clock;
      AdapterFails(clock, c);
      if told.failure.None? {
        var q := p;
        if ticked {
          q := AdapterTracks(clock, x, p, c);
        }
        PollLogFails(told, x, q, c);
      }
    }
  }

  lemma SameCalm(s: AgentState, t: AgentState, x: Origin)
    requires Valid(x.log) && t.core == s.core && t.image == s.image
    ensures CalmDrop(s, x) <==> CalmDrop(t, x)
  {
  }

  lemma DoneIsNoFailure(s: AgentState, c: SnapshotCycle)
    requires s.snapshot.Some? && s.failure.None?
    ensures SnapshotWork(s, c).1 ==> SnapshotWork(s, c).0.failure.None?
  {
    hide OfferAll, SnapshotOf, TryClaim;
  }

  lemma FailedForGood(s: AgentState, i: Input)
    requires s.failure.Some?
    ensures Step(s, i).failure == s.failure
  {
  }

  lemma SnapshottingFails(s: AgentState, x: Origin, p: Place, c: Cycle)
    requires Tracks(s, x, p) && Valid(x.log) && s.failure.None? && s.snapshot.Some?
    requires InputFits(Duty(c), x) && Calm(s, Duty(c), x)
    ensures OriginValid(x) && (IsSessionFailure(DoWork(s, c).failure) ==> FailsInLog(x, DoWork(s, c).failure))
  {
    NoFailureYet(s, x, p);
    SnapshotFails(s, c.snapshot);
    SnapshotWorkSameTrack(s, c.snapshot);
    hide Tracks, PollAll, SnapshotWork, InputFits, OriginValid, Valid, FailsInLog, CalmDrop, LogCallbacks;
    hide CheckForClockTick;
    var (worked, done) := SnapshotWork(s, c.snapshot);
    SameTracks(s, worked, x, p);
    if done {
      DoneIsNoFailure(s, c.snapshot);
      SameTracks(s, worked.(snapshot := None), x, p);
      SameCalm(s, worked.(snapshot := None), x);
      PollAllFails(worked.(snapshot := None), x, p, c);
    }
  }

  lemma StepFails(s: AgentState, x: Origin, p: Place, i: Input)
    requires Tracks(s, x, p) && Valid(x.log) && s.failure.None? && InputFits(i, x) && Calm(s, i, x)
    ensures OriginValid(x) && (IsSessionFailure(Step(s, i).failure) ==> FailsInLog(x, Step(s, i).failure))
  {
    NoFailureYet(s, x, p);
    hide Tracks, PollAll, SnapshotWork, InputFits, OriginValid, Valid, FailsInLog, CalmDrop, CheckForClockTick;
    if i.Duty? {
      if s.snapshot.Some? {
        SnapshottingFails(s, x, p, i.cycle);
      } else {
        PollAllFails(s, x, p, i.cycle);
      }
    }
  }

  lemma NoSessionFailure()
    ensures !IsSessionFailure(None)
  {
  }

  lemma {:induction false} TrackedRunFails(s: AgentState, x: Origin, p: Place, inputs: seq<Input>)
    requires Tracks(s, x, p) && Valid(x.log) && s.failure.None? && Fits(s, inputs, x)
    ensures OriginValid(x) && (IsSessionFailure(Run(s, inputs).failure) ==> FailsInLog(x, Run(s, inputs).failure))
    decreases |inputs|
  {
    NoSessionFailure();
    hide *;
    TracksLog(s, x, p);
    if |inputs| > 0 {
      var init, last := inputs[..|inputs| - 1], inputs[|inputs| - 1];
      assert inputs == init + [last];
      RunSnoc(s, init, last);
      FitsSnoc(s, init, last, x);
      TrackedRunFails(s, x, p, init);
      if Run(s, init).failure.None? {
        var q := RunTracks(s, x, p, init);
        StepFails(Run(s, init), x, q, last);
      } else {
        FailedForGood(Run(s, init), last);
      }
    } else {
      RunNone(s, inputs);
    }
  }

  /** A run over views of a log, as for contiguity: if it ends in a clashing open or an unknown close,
      replaying the log in order ends in that very failure too. */
  lemma RunFailsAsTheLog(s: AgentState, x: Origin, inputs: seq<Input>)
    requires OriginValid(x) && Trusted(x) && Starts(s, x) && Fits(s, inputs, x)
    ensures IsSessionFailure(Run(s, inputs).failure) ==> FailsInLog(x, Run(s, inputs).failure)
  {
    assert Valid(x.log);
    hide Tracks, OriginValid, Valid, Fits, FailsInLog, Run, Trusted;
    StartTracks(s, x);
    TrackedRunFails(s, x, Place(x.from, 0), inputs);
  }

  lemma LawfulNeverFails(x: Origin, failure: Option<Failure>)
    requires OriginValid(x) && failure.Some?
    requires Agrees(x.core.table) && Lawful(x.core.table, Entries(x.log, x.from, |x.log.messages|))
    ensures !FailsInLog(x, failure)
  {
    hide Valid, BoundOnFrames, Boundary, Lawful, Agrees;
    var whole := |x.log.messages|;
    ReplayMeansTheLog(x.core, Entries(x.log, x.from, whole));
    forall n | x.from < n <= whole ensures Applied(x, n).failure.None? {
      EntriesSplit(x.log, x.from, n, whole);
      ReplayAppends(x.core, Entries(x.log, x.from, n), Entries(x.log, n, whole));
    }
  }

  /** Over a lawful log no run ends like that. */
  lemma LawfulLogNeverFails(s: AgentState, x: Origin, inputs: seq<Input>)
    requires OriginValid(x) && Trusted(x) && Starts(s, x) && Fits(s, inputs, x)
    requires Agrees(x.core.table) && Lawful(x.core.table, Entries(x.log, x.from, |x.log.messages|))
    ensures !IsSessionFailure(Run(s, inputs).failure)
  {
    hide *;
    RunFailsAsTheLog(s, x, inputs);
    SomeFailure(Run(s, inputs).failure);
    if Run(s, inputs).failure.Some? {
      LawfulNeverFails(x, Run(s, inputs).failure);
    }
  }
}
