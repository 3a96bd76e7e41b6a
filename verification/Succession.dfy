/** One agent runs, snapshots and is succeeded by another: the two together stand for one agent that
    applied the whole log. */
module Succession {
  import opened Aeron
  import opened SessionTable
  import opened ReplicatedState
  import opened Reassembly
  import opened Publications
  import opened Snapshots
  import opened AgentSpec
  import opened DutyCycles
  import opened Journals
  import opened AckNumbers
  import opened Invariants
  import opened PendingAcks
  import opened SnapshotFreeze
  import opened LogViews
  import opened Tracking
  import opened Contiguity
  import opened LogFailures
  import opened Counters
  import opened Startup
  import opened StartupProofs
  import opened Recovery

  // ---- A successor with the state of an agent somewhere in the log ----

  /** A new origin in the same log, where replaying it from the old one has led. */
  ghost predicate LaterOrigin(x: Origin, y: Origin)
  {
    && OriginValid(x) && OriginValid(y) && y.log == x.log && y.bound.None? && !x.inside && !y.inside
    && y.callbacks == [] && x.from <= y.from && Applied(x, y.from).failure.None?
    && y.core == Applied(x, y.from).core.(logPosition := y.core.logPosition)
  }

  /** An agent that has nothing but the core of the one that tracks the log. */
  ghost predicate Succeeds(s: AgentState, t: AgentState)
  {
    && s.core == t.core && s.config.decode == t.config.decode && s.image.None? && s.activeLog.None?
    && LogCallbacks(s.journal) == []
  }

  lemma NothingApplied(y: Origin)
    requires OriginValid(y)
    ensures Applied(y, y.from) == Outcome(y.core, [], None)
  {
    hide Valid, BoundOnFrames, Boundary;
    assert Entries(y.log, y.from, y.from) == [];
  }

  lemma AppliedOnward(x: Origin, y: Origin, n: nat)
    requires LaterOrigin(x, y) && y.from <= n <= |x.log.messages|
    ensures SameButPosition(Applied(x, n), Outcome(Applied(y, n).core,
                                                   Applied(x, y.from).callbacks + Applied(y, n).callbacks,
                                                   Applied(y, n).failure))
  {
    hide Valid, BoundOnFrames, Boundary;
    EntriesSplit(x.log, x.from, y.from, n);
    ReplayAppends(x.core, Entries(x.log, x.from, y.from), Entries(x.log, y.from, n));
    ReplayIgnoresPosition(Applied(x, y.from).core, Entries(x.log, y.from, n), y.core.logPosition);
  }

  lemma LaterIsTrusted(x: Origin, y: Origin)
    requires LaterOrigin(x, y) && Trusted(x)
    ensures Trusted(y) && (Telling(x) ==> Telling(y))
  {
    hide Valid, BoundOnFrames, Boundary, Misleads, Tells, Applied;
    forall i | y.from <= i < |y.log.messages| && Applied(y, i).failure.None?
      ensures Applied(x, i).failure.None?
    {
      AppliedOnward(x, y, i);
    }
  }

  /** Where the log position is a boundary from which nothing has been dispatched. */
  ghost predicate StandsOn(t: AgentState, x: Origin, m: nat, b: nat)
    requires Valid(x.log) && m <= |x.log.messages|
  {
    x.from <= b <= m && Boundary(x.log, b) == t.core.logPosition && Silent(x.log, b, m)
  }

  lemma SucceedsThere(s: AgentState, t: AgentState, x: Origin, p: Place, b: nat) returns (y: Origin)
    requires Tracks(t, x, p) && Succeeds(s, t) && !x.inside && Valid(x.log) && p.message <= |x.log.messages|
    requires StandsOn(t, x, p.message, b)
    ensures LaterOrigin(x, y) && Tracks(s, y, Place(y.from, 0)) && y.log == x.log
    ensures LogCallbacks(t.journal) == x.callbacks + Applied(x, y.from).callbacks
  {
    WhatIsTracked(t, x, p);
    hide Tracks, Follows, Valid, BoundOnFrames, Boundary, Applied, Trusted, Placed;
    AppliedAcross(t, x, b, p.message);
    y := Origin(x.log, b, t.core, [], None, false, false);
    LaterIsTrusted(x, y);
    StartTracks(s, y);
  }

  lemma SucceedsElsewhere(s: AgentState, t: AgentState, x: Origin, p: Place) returns (y: Origin)
    requires Tracks(t, x, p) && Succeeds(s, t) && !x.inside && Valid(x.log) && p.message <= |x.log.messages|
    requires forall b: nat :: !StandsOn(t, x, p.message, b)
    ensures LaterOrigin(x, y) && Tracks(s, y, Place(y.from, 0)) && y.log == x.log
    ensures LogCallbacks(t.journal) == x.callbacks + Applied(x, y.from).callbacks
  {
    WhatIsTracked(t, x, p);
    hide Tracks, Valid, BoundOnFrames, Boundary, Applied, Trusted, Placed, WithinBound, Follows;
    var m := p.message;
    y := Origin(x.log, m, t.core.(logPosition := Boundary(x.log, m)), [], None, false, false);
    NothingApplied(y);
    PlaceStarts(x.log, m);
    LaterIsTrusted(x, y);
    ElsewherePlaced(s, t, x, y, p);
    ElsewhereFollows(s, y);
    TracksWhenUnbounded(s, y, Place(m, 0));
  }

  lemma ElsewhereFollows(s: AgentState, y: Origin)
    requires OriginValid(y) && InLog(y.log, Place(y.from, 0)) && Applied(y, y.from) == Outcome(y.core, [], None)
    requires s.core == y.core.(logPosition := s.core.logPosition) && s.config.decode == y.log.decode
    requires s.image.None? && s.activeLog.None? && LogCallbacks(s.journal) == [] && y.callbacks == []
    ensures Follows(s, y, Place(y.from, 0))
  {
    hide Valid, BoundOnFrames, Boundary, FramesFrom, Applied;
    assert y.callbacks + [] == [];
  }

  lemma TracksWhenUnbounded(s: AgentState, y: Origin, p: Place)
    requires OriginValid(y) && InLog(y.log, p) && Follows(s, y, p) && Trusted(y) && Placed(s, y, p) && y.bound.None?
    ensures Tracks(s, y, p)
  {
    hide Follows, Trusted, Placed, Valid;
  }

  lemma ElsewherePlaced(s: AgentState, t: AgentState, x: Origin, y: Origin, p: Place)
    requires OriginValid(x) && OriginValid(y) && y.log == x.log && y.from == p.message && !x.inside && !y.inside
    requires !y.told
    requires InLog(x.log, p) && InLog(x.log, Place(p.message, 0)) && p.message <= |x.log.messages| && Placed(t, x, p)
    requires s.core.logPosition == t.core.logPosition && s.image.None?
    requires forall b: nat :: !StandsOn(t, x, p.message, b)
    ensures Placed(s, y, Place(p.message, 0))
  {
    hide Valid, BoundOnFrames, Boundary, PlaceAt, AllHonest;
    if AllHonest(x.log) {
      var q :| PositionedAt(t, x, q, p);
      PlaceStarts(x.log, q.message);
      assert q.frame == 0 <==> StandsOn(t, x, p.message, q.message);
      assert PositionedAt(s, y, q, Place(p.message, 0));
    } else {
      forall b: nat | b <= |x.log.messages| && Boundary(x.log, b) == s.core.logPosition
        ensures y.from <= b && Silent(x.log, b, p.message)
      {
        assert !StandsOn(t, x, p.message, b);
      }
    }
  }

  /** Where the log position tells what has been applied, the successor goes on behind that. */
  lemma SucceedsToPosition(s: AgentState, t: AgentState, x: Origin, p: Place) returns (y: Origin)
    requires Tracks(t, x, p) && Succeeds(s, t) && !x.inside && Valid(x.log) && p.message <= |x.log.messages|
    requires OriginValid(x) && Reliable(x) && !AllHonest(x.log)
    ensures LaterOrigin(x, y) && Tracks(s, y, Place(y.from, 0)) && Reliable(y)
    ensures LogCallbacks(t.journal) == x.callbacks + Applied(x, y.from).callbacks
  {
    WhatIsTracked(t, x, p);
    var n: nat :| TellsAt(t, x, n, p.message);
    hide Tracks, Valid, BoundOnFrames, Boundary, Applied, Trusted, Placed, WithinBound, Follows, Telling, EndsBelow;
    AppliedAcross(t, x, n, p.message);
    y := Origin(x.log, n, t.core.(logPosition := Boundary(x.log, n)), [], None, false, true);
    NothingApplied(y);
    PlaceStarts(x.log, n);
    LaterIsTrusted(x, y);
    ToldPlaced(s, y);
    ElsewhereFollows(s, y);
    TracksWhenUnbounded(s, y, Place(n, 0));
  }

  lemma ToldPlaced(s: AgentState, y: Origin)
    requires OriginValid(y) && InLog(y.log, Place(y.from, 0)) && !AllHonest(y.log)
    requires EndsBelow(y.log, y.from, s.core.logPosition)
    ensures Placed(s, y, Place(y.from, 0))
  {
    hide Valid, BoundOnFrames, Boundary, AllHonest, EndsBelow;
    assert TellsAt(s, y, y.from, y.from);
    forall b: nat | b <= |y.log.messages| && Boundary(y.log, b) == s.core.logPosition
      ensures y.from <= b && Silent(y.log, b, y.from)
    {
      BoundaryEndsBelow(y.log, b);
      EndsBelowOnce(y.log, b, y.from, s.core.logPosition);
    }
  }

  /** An agent with the core of one that tracks a log tracks it too, from where that one stands. */
  lemma SuccessorTracks(s: AgentState, t: AgentState, x: Origin, p: Place) returns (y: Origin)
    requires Tracks(t, x, p) && Succeeds(s, t) && !x.inside
    ensures LaterOrigin(x, y) && Tracks(s, y, Place(y.from, 0)) && (Reliable(x) ==> Reliable(y))
    ensures LogCallbacks(t.journal) == x.callbacks + Applied(x, y.from).callbacks
  {
    WhatIsTracked(t, x, p);
    hide Tracks, Follows, LaterOrigin, Succeeds, Valid, Applied, OriginValid, StandsOn, AllHonest, Telling;
    if Reliable(x) && !AllHonest(x.log) {
      y := SucceedsToPosition(s, t, x, p);
    } else if b: nat :| StandsOn(t, x, p.message, b) {
      y := SucceedsThere(s, t, x, p, b);
    } else {
      y := SucceedsElsewhere(s, t, x, p);
    }
  }

  /** What replaying the log from the origin to message `n` leads to, with the callbacks of the
      predecessor before its own. */
  ghost predicate HasContinued(u: AgentState, x: Origin, before: seq<Callback>, n: nat)
    requires OriginValid(x) && x.from <= n <= |x.log.messages|
  {
    var whole := Applied(x, n);
    && whole.failure.None?
    && u.core.table == whole.core.table && u.core.clusterTime == whole.core.clusterTime
    && u.core.leadershipTermId == whole.core.leadershipTermId
    && before + LogCallbacks(u.journal) == x.callbacks + whole.callbacks
  }

  /** Through exactly the messages whose last frame it has read, and the whole log once every frame has been. */
  ghost predicate ContinuesAsRead(u: AgentState, x: Origin, before: seq<Callback>)
    requires OriginValid(x)
  {
    u.image.Some? ==>
      && (exists n :: && x.from <= n <= |x.log.messages| && WhollyRead(x.log, u.image.value, n)
                      && HasContinued(u, x, before, n))
      && (u.image.value.consumed == |u.image.value.frames| ==> HasContinued(u, x, before, |x.log.messages|))
  }

  /** Through exactly the messages that end at or below its log position. */
  ghost predicate ContinuesToPosition(u: AgentState, x: Origin, before: seq<Callback>)
    requires OriginValid(x)
  {
    exists n :: && x.from <= n <= |x.log.messages| && EndsBelow(x.log, n, u.core.logPosition)
                && HasContinued(u, x, before, n)
  }

  lemma SuccessorContinues(u: AgentState, x: Origin, y: Origin, n: nat, before: seq<Callback>)
    requires LaterOrigin(x, y) && y.from <= n <= |x.log.messages| && HasApplied(u, y, n)
    requires before == x.callbacks + Applied(x, y.from).callbacks
    ensures HasContinued(u, x, before, n)
  {
    hide Valid, BoundOnFrames, Boundary, OriginValid, Applied, LogCallbacks;
    AppliedOnward(x, y, n);
    assert [] + Applied(y, n).callbacks == Applied(y, n).callbacks;
    assert x.callbacks + Applied(x, y.from).callbacks + Applied(y, n).callbacks
        == x.callbacks + (Applied(x, y.from).callbacks + Applied(y, n).callbacks);
  }

  lemma SuccessorReads(u: AgentState, x: Origin, y: Origin, before: seq<Callback>)
    requires LaterOrigin(x, y) && AppliedAsRead(u, y) && before == x.callbacks + Applied(x, y.from).callbacks
    ensures ContinuesAsRead(u, x, before)
  {
    hide Valid, BoundOnFrames, Boundary, Applied, LogCallbacks, HasApplied, HasContinued, WhollyRead;
    if u.image.Some? {
      var n :| y.from <= n <= |y.log.messages| && WhollyRead(y.log, u.image.value, n) && HasApplied(u, y, n);
      SuccessorContinues(u, x, y, n, before);
      if u.image.value.consumed == |u.image.value.frames| {
        SuccessorContinues(u, x, y, |x.log.messages|, before);
      }
    }
  }

  lemma SuccessorReaches(u: AgentState, x: Origin, y: Origin, before: seq<Callback>)
    requires LaterOrigin(x, y) && (exists n :: AppliedToPosition(u, y, n))
    requires before == x.callbacks + Applied(x, y.from).callbacks
    ensures ContinuesToPosition(u, x, before)
  {
    hide Valid, BoundOnFrames, Boundary, Applied, LogCallbacks, HasApplied, HasContinued, EndsBelow;
    var n :| AppliedToPosition(u, y, n);
    SuccessorContinues(u, x, y, n, before);
  }

  lemma SuccessorFails(x: Origin, y: Origin, failure: Option<Failure>)
    requires LaterOrigin(x, y) && FailsInLog(y, failure)
    ensures FailsInLog(x, failure)
  {
    hide Valid, BoundOnFrames, Boundary, Applied;
    var n :| y.from < n <= |y.log.messages| && Applied(y, n).failure == failure;
    AppliedOnward(x, y, n);
    assert x.from < n && Applied(x, n).failure == failure;
  }

  /** Fitting inputs are a matter of the log alone. */
  lemma FitsLater(s: AgentState, x: Origin, y: Origin, inputs: seq<Input>)
    requires LaterOrigin(x, y) && Fits(s, inputs, x)
    ensures Fits(s, inputs, y)
  {
    hide Valid, BoundOnFrames, IsView, Applied, Run, CalmDrop, AtAdapter;
  }

  lemma SuccessorRun(s: AgentState, t: AgentState, x: Origin, p: Place, inputs: seq<Input>)
    requires Tracks(t, x, p) && Succeeds(s, t) && s.failure.None? && !x.inside && Valid(x.log) && Fits(s, inputs, x)
    ensures OriginValid(x)
    ensures var u := Run(s, inputs);
            && (u.failure.None? ==>
                  && ContinuesAsRead(u, x, LogCallbacks(t.journal))
                  && (Reliable(x) ==> ContinuesToPosition(u, x, LogCallbacks(t.journal))))
            && (IsSessionFailure(u.failure) ==> FailsInLog(x, u.failure))
  {
    var y := SuccessorTracks(s, t, x, p);
    TracksLog(s, y, Place(y.from, 0));
    TracksLog(t, x, p);
    assert y.log == x.log;
    var u := Run(s, inputs);
    hide *;
    FitsLater(s, x, y, inputs);
    TrackedRunFails(s, y, Place(y.from, 0), inputs);
    if u.failure.None? {
      var q := RunTracks(s, y, Place(y.from, 0), inputs);
      TrackedAsRead(u, y, q);
      SuccessorReads(u, x, y, LogCallbacks(t.journal));
      if Reliable(x) {
        var n := TrackedIsApplied(u, y, q);
        SuccessorReaches(u, x, y, LogCallbacks(t.journal));
      }
    } else if IsSessionFailure(u.failure) {
      SuccessorFails(x, y, u.failure);
    }
  }

  // ---- What the consensus module records of a snapshot ----

  /** The recovery counter has the position and the time of the ack, and the term of the snapshot's
      BEGIN; the snapshot found is what the recording holds. */
  ghost predicate RecordedFrom(r: RecoveryRecord, worked: AgentState)
  {
    && worked.snapshot.Some? && |worked.journal| > 0 && |worked.snapshot.value.contents| > 0
    && var last, first := worked.journal[|worked.journal| - 1], worked.snapshot.value.contents[0];
    && last.Sent? && last.request.ServiceAck? && first.SnapshotMarker?
    && r.core.logPosition == last.request.logPosition && r.core.clusterTime == last.request.timestamp
    && r.core.leadershipTermId == first.leadershipTermId
    && r.snapshot == worked.snapshot.value.contents
  }

  lemma ShowsIgnoresTable(r: RecoveryRecord, table: Table, clusterId: int, attempts: seq<Attempt>)
    requires Shows(r, clusterId, attempts)
    ensures Shows(r.(core := r.core.(table := table)), clusterId, attempts)
  {
    hide Search, GetLogPosition, GetTimestamp, GetLeadershipTermId;
    var other := r.(core := r.core.(table := table));
    assert forall a: Attempt :: Finds(other, clusterId, a) <==> Finds(r, clusterId, a);
    assert forall a: Attempt :: Reads(other, a) <==> Reads(r, a);
  }

  /** What is recorded of an acknowledged snapshot is a record of the core that was acknowledged. */
  lemma RecordedIsRecord(s: AgentState, inputs: seq<Input>, c: Cycle, r: RecoveryRecord)
    requires Idle(s)
    requires Run(s, inputs).failure.None? && Run(s, inputs).snapshot.Some? && SnapshotWork(Run(s, inputs), c.snapshot).1
    requires RecordedFrom(r, SnapshotWork(Run(s, inputs), c.snapshot).0)
    ensures var t := Run(s, inputs);
            && r.core.(table := t.core.table) == t.core
            && IsRecordOf(RecoveryRecord(r.counterId, t.core, r.snapshot), t.core, t.config.appVersion,
                          OwnWrites(s, inputs) + ServiceWrote(t, Duty(c)))
  {
    hide Run, SnapshotWork, OwnWrites, ServiceWrote, Idle, DoWork, Records;
    AcknowledgedWhole(s, inputs, c);
  }

  lemma TrackedDecodes(t: AgentState, x: Origin, p: Place)
    requires Tracks(t, x, p)
    ensures t.config.decode == x.log.decode
  {
  }

  lemma TrackedAgrees(t: AgentState, x: Origin, p: Place)
    requires Tracks(t, x, p) && Agrees(x.core.table)
    ensures Agrees(t.core.table)
  {
    WhatIsTracked(t, x, p);
    hide Valid, BoundOnFrames, Agrees, Tracks, OriginValid;
    ReplayMeansTheLog(x.core, Entries(x.log, x.from, p.message));
  }

  /** A started agent with another's core succeeds it. */
  lemma NewSucceeds(s: Connecting, attempts: seq<Attempt>, t: AgentState)
    requires IsNew(s) && Connect(s, attempts).agent.core == t.core
    requires Connect(s, attempts).agent.config.decode == t.config.decode
    ensures Succeeds(Connect(s, attempts).agent, t)
  {
    NotesKept(s, attempts);
    StartNotesCallNothing(Connect(s, attempts).agent.journal);
  }

  /** The agents together: the first runs over views of a log, from wherever it started, and
      acknowledges the recording of a snapshot; the consensus module records that ack's position and
      time and the term of its BEGIN; a second agent starts up from them, and runs over views of the
      same log. It has at every moment what one agent would that had applied the log from the first
      one's origin, its callbacks continuing the first one's; and if a log event ends it, replaying the
      log from that origin ends in the same failure. */
  lemma SnapshotSucceeds(s: AgentState, x: Origin, inputs: seq<Input>, c: Cycle, r: RecoveryRecord,
                         startup: Connecting, attempts: seq<Attempt>, later: seq<Input>)
    requires OriginValid(x) && Trusted(x) && !x.inside && Agrees(x.core.table)
    requires Starts(s, x) && Idle(s) && Fits(s, inputs, x)
    requires Run(s, inputs).failure.None? && Run(s, inputs).snapshot.Some? && SnapshotWork(Run(s, inputs), c.snapshot).1
    requires RecordedFrom(r, SnapshotWork(Run(s, inputs), c.snapshot).0)
    requires Run(s, inputs).core.leadershipTermId != NULL_VALUE || Run(s, inputs).core.table == NO_SESSIONS
    requires IsNew(startup) && Shows(r, startup.clusterId, attempts)
    requires Connect(startup, attempts).step >= 3 && Connect(startup, attempts).agent.failure.None?
    requires Connect(startup, attempts).agent.config.decode == x.log.decode
    requires Fits(Connect(startup, attempts).agent, later, x)
    ensures var t, u := Run(s, inputs), Run(Connect(startup, attempts).agent, later);
            && (u.failure.None? ==>
                  && ContinuesAsRead(u, x, LogCallbacks(t.journal))
                  && (Reliable(x) ==> ContinuesToPosition(u, x, LogCallbacks(t.journal))))
            && (IsSessionFailure(u.failure) ==> FailsInLog(x, u.failure))
  {
    assert Valid(x.log) && s.failure.None?;
    var t := Run(s, inputs);
    var own := OwnWrites(s, inputs) + ServiceWrote(t, Duty(c));
    var record := RecoveryRecord(r.counterId, t.core, r.snapshot);
    RecordedIsRecord(s, inputs, c, r);
    assert record == r.(core := r.core.(table := t.core.table));
    hide *;
    StartTracks(s, x);
    var p := RunTracks(s, x, Place(x.from, 0), inputs);
    TrackedAgrees(t, x, p);
    ShowsIgnoresTable(r, t.core.table, startup.clusterId, attempts);
    RecoversIffTermOrEmpty(startup, attempts, record, t.core, t.config.appVersion, own);
    TrackedDecodes(t, x, p);
    NewSucceeds(startup, attempts, t);
    SuccessorRun(Connect(startup, attempts).agent, t, x, p, later);
  }

  // ---- Acks of a successor ----

  /** A started agent that goes on over views of a log that tells acknowledges positions that never go back,
      from its first ack on. */
  lemma RecoveredAcksNeverGoBack(s: Connecting, attempts: seq<Attempt>, x: Origin, inputs: seq<Input>)
    requires IsNew(s) && Connect(s, attempts).agent.failure.None? && OriginValid(x) && Trusted(x) && Reliable(x)
    requires Connect(s, attempts).agent.core == x.core && Connect(s, attempts).agent.config.decode == x.log.decode
             && x.callbacks == []
    requires Fits(Connect(s, attempts).agent, inputs, x)
    ensures AcksInOrder(Run(Connect(s, attempts).agent, inputs).journal)
  {
    assert Valid(x.log);
    var t := Connect(s, attempts).agent;
    ConnectKeeps(s, attempts);
    NotesKept(s, attempts);
    StartAcksInOrder(Connect(s, attempts));
    StartNotesCallNothing(t.journal);
    hide Connect, OriginValid, Valid, Fits, Run, AcksInOrder, AcksUpTo, Tracks, Reliable, Trusted;
    StartTracks(t, x);
    AcksNeverGoBack(t, x, Place(x.from, 0), inputs);
  }

  lemma StartAcksInOrder(s: Connecting)
    requires AcksAreReturns(s)
    ensures AcksInOrder(s.agent.journal) && AcksUpTo(s.agent.journal, s.agent.core.logPosition)
  {
    hide Acks;
    AcksAt(s.agent.journal, s.agent.core.logPosition);
  }
}
