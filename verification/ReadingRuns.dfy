/** Duty cycles that do one thing: join an image, read one frame of it, or close it; and the runs they
    make through a log. */
module ReadingRuns {
  import opened Aeron
  import opened SessionTable
  import opened ReplicatedState
  import opened Reassembly
  import opened Publications
  import opened Snapshots
  import opened AgentSpec
  import opened DutyCycles
  import opened LogViews
  import opened Tracking

  /** An agent that can go on reading. */
  predicate Able(s: AgentState)
  {
    s.failure.None? && !s.isAbort && s.config.fragmentLimit > 0
  }

  // ---- Snapshots out of the way ----

  function Ones(n: nat): (r: seq<int>)
    ensures |r| == n && forall i | 0 <= i < n :: r[i] == 1
  {
    seq(n, _ => 1)
  }

  lemma {:induction false} OffersTaken<M>(messages: seq<M>, results: seq<int>)
    requires |results| == |messages| && forall i | 0 <= i < |results| :: results[i] == 1
    ensures OfferAll(messages, results) == (messages, ALL_OFFERED)
    decreases |messages|
  {
    if messages != [] {
      OffersTaken(messages[1..], results[1..]);
      assert messages == [messages[0]] + messages[1..];
    }
  }

  /** Everything a snapshot waits for, at once. */
  function Finishing(s: AgentState): SnapshotCycle
  {
    var messages :=
      SnapshotOf(s.core.table.sessions, s.core.logPosition, s.core.leadershipTermId, s.config.appVersion);
    SnapshotCycle(true, false, Some(0), Ones(|messages|), [], true, true, [1])
  }

  lemma OneGranted()
    ensures TryClaim([1]) == CLAIMED
  {
  }

  /** What stays the same while a snapshot is finished or the clock looked at. */
  ghost predicate StillAble(s: AgentState, t: AgentState)
  {
    && SameTrack(s, t) && t.failure == s.failure && t.isAbort == s.isAbort && t.role == s.role
    && t.maxLogPosition == s.maxLogPosition
  }

  lemma SnapshotFinishes(s: AgentState)
    requires s.snapshot.Some? && s.failure.None?
    ensures var (t, done) := SnapshotWork(s, Finishing(s));
            done && StillAble(s, t) && t.lastSlowTickNs == s.lastSlowTickNs
  {
    SnapshotWorkSameTrack(s, Finishing(s));
    var messages :=
      SnapshotOf(s.core.table.sessions, s.core.logPosition, s.core.leadershipTermId, s.config.appVersion);
    OffersTaken(messages, Ones(|messages|));
    OneGranted();
    hide OfferAll, TryClaim, LogCallbacks, SnapshotOf;
  }

  /** The agent with no snapshot under way. */
  function Unsnapshotted(s: AgentState): AgentState
  {
    if s.snapshot.Some? then SnapshotWork(s, Finishing(s)).0.(snapshot := None) else s
  }

  lemma UnsnapshottedDoes(s: AgentState, c: Cycle)
    requires s.failure.None? && c.snapshot == Finishing(s)
    ensures DoWork(s, c) == PollAll(Unsnapshotted(s), c)
    ensures AtAdapter(s, Duty(c)) ==
            if PollsAdapter(Unsnapshotted(s), c) then Some(CheckForClockTick(Unsnapshotted(s), c).0) else None
    ensures StillAble(s, Unsnapshotted(s)) && Unsnapshotted(s).lastSlowTickNs == s.lastSlowTickNs
    ensures Unsnapshotted(s).snapshot.None?
  {
    hide SnapshotWork, PollAll, CheckForClockTick, LogCallbacks;
    if s.snapshot.Some? {
      SnapshotFinishes(s);
    }
  }

  // ---- Reading one frame ----

  function Reading(s: AgentState): Cycle
    requires s.image.Some?
  {
    Cycle(s.lastSlowTickNs, false, false, false, OtherAdapterMessage, 0, false, None, [], [],
          Position(s.image.value) + 1, s.image.value.consumed + 1, 1, false, false, Finishing(s))
  }

  lemma ReadingPolls(s: AgentState)
    requires Able(s) && s.image.Some?
    ensures var ready := Unsnapshotted(s);
            ready.image.Some? && DoWork(s, Reading(s)) == PollLog(ready, Reading(s))
  {
    UnsnapshottedDoes(s, Reading(s));
    hide Unsnapshotted, Position, PollLog, Finishing, DoWork, LogCallbacks;
  }

  /** One frame accepted is the whole poll. */
  lemma PollsOneFrame(s: AgentState, limit: int, available: nat, fragments: nat)
    requires s.image.Some? && s.image.value.consumed < |s.image.value.frames| && fragments > 0
    requires available == s.image.value.consumed + 1 && Position(s.image.value) < limit
    requires var (next, action) := OnFragment(s, s.image.value.frames[s.image.value.consumed], true);
             action == CONTINUE && next.image == s.image
    ensures var next := OnFragment(s, s.image.value.frames[s.image.value.consumed], true).0;
            Poll(s, limit, available, fragments, 1) == (ReadOneMore(next), 1)
  {
    hide OnFragment, Offered, Position;
    var next := OnFragment(s, s.image.value.frames[s.image.value.consumed], true).0;
    var left := if Offered(s.builder, s.image.value.frames[s.image.value.consumed]).Some? then 0 else 1;
    assert Poll(ReadOneMore(next), limit, available, fragments - 1, left) == (ReadOneMore(next), 0);
  }

  /** Where the agent stands once the frame at `p` has been read. */
  ghost predicate ReadPast(s: AgentState, t: AgentState, x: Origin, p: Place)
    requires Valid(x.log) && InLog(x.log, p) && p.message < |x.log.messages|
  {
    && Able(t) && t.image.Some? && InLog(x.log, NextPlace(x.log, p)) && Follows(t, x, NextPlace(x.log, p))
    && t.core.logPosition ==
       if p.frame + 1 == |x.log.messages[p.message]| && Stamp(MessageEntry(x.log, p.message)).Some?
       then Stamp(MessageEntry(x.log, p.message)).value
       else s.core.logPosition
  }

  lemma ApplyStaysAble(s: AgentState, e: Event, position: int)
    requires Able(s) && Apply(s, e, position).failure.None?
    ensures Able(Apply(s, e, position)) && Apply(s, e, position).image == s.image
  {
  }

  lemma LastFrameAccepted(s: AgentState, x: Origin, p: Place)
    requires Able(s) && Follows(s, x, p) && s.image.Some? && s.image.value.consumed < |s.image.value.frames|
    requires OriginValid(x) && Valid(x.log) && InLog(x.log, p) && x.from <= p.message < |x.log.messages|
    requires HasApplied(s, x, p.message) && InLog(x.log, NextPlace(x.log, p))
    requires p.frame + 1 == |x.log.messages[p.message]| && Applied(x, p.message + 1).failure.None?
    ensures var (next, action) := OnFragment(s, s.image.value.frames[s.image.value.consumed], true);
            action == CONTINUE && next.image == s.image && ReadPast(s, ReadOneMore(next), x, p)
  {
    var e := MessageEntry(x.log, p.message);
    ApplyMoves(s, e);
    hide Follows, OnFragment, Apply, OriginValid, Valid, MessageEntry, HasApplied, Applied, NextPlace, InLog, Stamp;
    AppliedFails(s, x, p.message);
    LastFrameFollows(s, x, p, true);
    ApplyStaysAble(s, e.event, e.position);
  }

  lemma MiddleFrameAccepted(s: AgentState, x: Origin, p: Place)
    requires Able(s) && Follows(s, x, p) && s.image.Some? && s.image.value.consumed < |s.image.value.frames|
    requires Valid(x.log) && InLog(x.log, p) && p.message < |x.log.messages| && InLog(x.log, NextPlace(x.log, p))
    requires p.frame + 1 < |x.log.messages[p.message]|
    ensures var (next, action) := OnFragment(s, s.image.value.frames[s.image.value.consumed], true);
            action == CONTINUE && next.image == s.image && ReadPast(s, ReadOneMore(next), x, p)
  {
    hide Follows, OnFragment, Valid, MessageEntry, NextPlace, InLog, Stamp;
    MiddleFrameFollows(s, x, p, true);
  }

  /** The frame at `p`, accepted. */
  lemma FrameAccepted(s: AgentState, x: Origin, p: Place)
    requires Able(s) && Follows(s, x, p) && s.image.Some? && s.image.value.consumed < |s.image.value.frames|
    requires OriginValid(x) && p.message < |x.log.messages|
    requires p.frame + 1 == |x.log.messages[p.message]| ==> Applied(x, p.message + 1).failure.None?
    ensures InLog(x.log, p)
    ensures var (next, action) := OnFragment(s, s.image.value.frames[s.image.value.consumed], true);
            action == CONTINUE && next.image == s.image && ReadPast(s, ReadOneMore(next), x, p)
  {
    WhatFollows(s, x, p);
    assert p.frame < |x.log.messages[p.message]|;
    hide *;
    NextFrameOffered(s, x, p);
    if p.frame + 1 == |x.log.messages[p.message]| {
      LastFrameAccepted(s, x, p);
    } else {
      MiddleFrameAccepted(s, x, p);
    }
  }

  lemma FramesLeft(s: AgentState, x: Origin, p: Place)
    requires Follows(s, x, p) && s.image.Some? && p.message < |x.log.messages|
    ensures s.image.value.consumed < |s.image.value.frames|
  {
    WhatFollows(s, x, p);
    hide Follows, OriginValid, Valid, HasApplied;
    NextFrame(x.log, p);
    hide FramesFrom;
    assert |s.image.value.frames[s.image.value.consumed..]| > 0;
  }

  lemma StillAbleFollows(s: AgentState, t: AgentState, x: Origin, p: Place)
    requires Follows(s, x, p) && StillAble(s, t)
    ensures Follows(t, x, p) && (Able(s) ==> Able(t))
  {
    SameFollows(s, t, x, p);
  }

  lemma PollLogReadsOne(s: AgentState, c: Cycle)
    requires Able(s) && s.image.Some? && s.image.value.consumed < |s.image.value.frames|
    requires c.available == s.image.value.consumed + 1 && Position(s.image.value) < c.commitPosition
    requires c.accepts == 1 && !c.imageClosed
    requires var (next, action) := OnFragment(s, s.image.value.frames[s.image.value.consumed], true);
             action == CONTINUE && next.image == s.image
    ensures PollLog(s, c) == ReadOneMore(OnFragment(s, s.image.value.frames[s.image.value.consumed], true).0)
  {
    hide OnFragment, Position;
    PollsOneFrame(s, c.commitPosition, c.available, s.config.fragmentLimit);
    hide Poll;
  }

  lemma SamePast(s: AgentState, ready: AgentState, t: AgentState, x: Origin, p: Place)
    requires Valid(x.log) && InLog(x.log, p) && p.message < |x.log.messages|
    requires ReadPast(ready, t, x, p) && ready.core == s.core
    ensures ReadPast(s, t, x, p)
  {
  }

  /** One cycle reads one frame. */
  lemma ReadsOneFrame(s: AgentState, x: Origin, p: Place)
    requires Able(s) && Follows(s, x, p) && s.image.Some? && OriginValid(x) && p.message < |x.log.messages|
    requires p.frame + 1 == |x.log.messages[p.message]| ==> Applied(x, p.message + 1).failure.None?
    ensures InLog(x.log, p) && ReadPast(s, DoWork(s, Reading(s)), x, p)
  {
    WhatFollows(s, x, p);
    FramesLeft(s, x, p);
    UnsnapshottedDoes(s, Reading(s));
    ReadingPolls(s);
    var ready := Unsnapshotted(s);
    assert ready.image == s.image && ready.core == s.core;
    StillAbleFollows(s, ready, x, p);
    var c := Reading(s);
    assert c.available == ready.image.value.consumed + 1 && Position(ready.image.value) < c.commitPosition;
    assert c.accepts == 1 && !c.imageClosed;
    hide *;
    FrameAccepted(ready, x, p);
    PollLogReadsOne(ready, c);
    SamePast(s, ready, PollLog(ready, c), x, p);
  }

  // ---- Joining ----

  /** The consensus module asks for a join at the log position, and the image is there. */
  function Joining(s: AgentState, image: Image): Cycle
  {
    Cycle(s.lastSlowTickNs + TICK_NS + 1, false, false, false,
          JoinLog(image.joinPosition, image.joinPosition + 1, 0, 0), 1, true, Some(image), [1], [],
          image.joinPosition, 0, 0, false, false, Finishing(s))
  }

  ghost predicate JoinedNow(s: AgentState, t: AgentState, image: Image)
  {
    && Able(t) && t.core == s.core && t.image == Some(image) && t.activeLog.None? && t.config == s.config
    && t.builder == s.builder && LogCallbacks(t.journal) == LogCallbacks(s.journal)
  }

  lemma JoinIsMade(s: AgentState, c: Cycle, image: Image)
    requires Able(s) && c.adapterMessage == JoinLog(image.joinPosition, image.joinPosition + 1, 0, 0)
    requires c.logImage == Some(image) && c.subscriptionId == 1 && c.subscriptionFound && c.joinClaims == [1]
    requires image.joinPosition == s.core.logPosition
    ensures var told := Told(s, c);
            && told.failure.None? && told.activeLog.Some? && told.image.None?
            && var (joining, joined) := JoinActiveLog(told, c);
            && joined && joining.failure.None? && joining.image == Some(image)
            && joining.maxLogPosition == image.joinPosition + 1 && Able(joining)
            && JoinedNow(s, joining.(activeLog := None), image)
  {
    OneGranted();
    hide TryClaim, LogCallbacks;
    var told := Told(s, c);
    LogCallbacksSnoc(s.journal, AdapterPolled(c.nowNs));
    JoinOutcome(told, c);
  }

  /** One cycle drops the image there was, joins another, and reads nothing of it yet. */
  lemma JoinsThere(s: AgentState, image: Image)
    requires Able(s) && image.joinPosition == s.core.logPosition && image.consumed == 0
    ensures var c := Joining(s, image);
            && AtAdapter(s, Duty(c)).Some? && JoinedNow(s, DoWork(s, c), image)
            && var told := Told(AtAdapter(s, Duty(c)).value, c);
            && told.failure.None? && told.activeLog.Some? && told.image.None?
            && JoinActiveLog(told, c).1 && JoinActiveLog(told, c).0.image == Some(image)
  {
    var c := Joining(s, image);
    UnsnapshottedDoes(s, c);
    var ready := Unsnapshotted(s);
    var clock := CheckForClockTick(ready, c).0;
    assert PollsAdapter(ready, c) && clock == ready.(lastSlowTickNs := c.nowNs);
    hide Unsnapshotted, DoWork, AtAdapter, Finishing, LogCallbacks;
    JoinIsMade(clock, c, image);
    hide JoinActiveLog, Told;
    JoinReadsNothing(clock, c, image);
  }

  lemma JoinReadsNothing(clock: AgentState, c: Cycle, image: Image)
    requires var told := Told(clock, c);
             && told.failure.None? && told.activeLog.Some? && told.image.None?
             && var (joining, joined) := JoinActiveLog(told, c);
             && joined && joining.failure.None? && joining.image == Some(image)
             && joining.maxLogPosition == image.joinPosition + 1
    requires c.available == 0 && !c.endOfStream && !c.imageClosed && image.consumed == 0
    ensures PollServiceAdapter(clock, c).failure.None?
    ensures PollLog(PollServiceAdapter(clock, c), c) == JoinActiveLog(Told(clock, c), c).0.(activeLog := None)
  {
    hide JoinActiveLog;
  }
}
