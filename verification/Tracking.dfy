/** Where an agent stands in a log: the place it has read to, what it has applied, and what its log
    position says; and how every input moves it on. */
module Tracking {
  import opened Aeron
  import opened SessionTable
  import opened ReplicatedState
  import opened Reassembly
  import opened ReassemblyProofs
  import opened Publications
  import opened AgentSpec
  import opened DutyCycles
  import opened LogViews

  /** The callbacks that come from log events, among all that a journal holds. */
  function LogCallbacks(journal: seq<Note>): seq<Callback>
  {
    if |journal| == 0 then []
    else
      var init := LogCallbacks(journal[..|journal| - 1]);
      match journal[|journal| - 1]
      case Called(c) => if c.OnRoleChange? || c.OnTakeSnapshot? || c.OnStart? then init else init + [c]
      case _ => init
  }

  lemma LogCallbacksSnoc(journal: seq<Note>, n: Note)
    ensures LogCallbacks(journal + [n]) ==
            LogCallbacks(journal) +
            if n.Called? && !n.callback.OnRoleChange? && !n.callback.OnTakeSnapshot? && !n.callback.OnStart?
            then [n.callback] else []
  {
    assert (journal + [n])[..|journal|] == journal;
  }

  /** Where a run starts: message `from` of the log, with the state and callbacks of that moment. All
      commit positions it reads may be known to stay below a bound; images may be allowed that are joined
      inside a message; and the position it starts with may be relied upon to tell what has been applied. */
  datatype Origin = Origin(
    log: Log, from: nat, core: Core, callbacks: seq<Callback>, bound: Option<int>, inside: bool, told: bool)

  ghost predicate OriginValid(x: Origin)
  {
    && Valid(x.log) && x.from <= |x.log.messages|
    && x.core.logPosition == Boundary(x.log, x.from)
    && (x.bound.Some? ==> x.core.logPosition <= x.bound.value && BoundOnFrames(x.log, x.bound.value))
  }

  /** A position at which no frame of the log is cut. */
  ghost predicate BoundOnFrames(log: Log, position: int)
    requires Valid(log)
  {
    MessagesHaveFrames(log);
    forall m, j | 0 <= m < |log.messages| && 0 <= j < |log.messages[m]| ::
      PositionAt(log, m, j) < position ==> log.messages[m][j].position <= position
  }

  ghost function Applied(x: Origin, m: nat): Outcome
    requires OriginValid(x) && x.from <= m <= |x.log.messages|
  {
    Replay(x.core, Entries(x.log, x.from, m))
  }

  /** No message that can be applied misleads: none takes the log position to a boundary that has
      dispatched messages between it and the message's own end. */
  ghost predicate Leading(x: Origin)
    requires OriginValid(x)
  {
    forall i | x.from <= i < |x.log.messages| && Applied(x, i).failure.None? :: !Misleads(x.log, i)
  }

  /** Every message that can be applied takes the log position to where it ends, up to undispatched
      messages, or into the message that starts there. */
  ghost predicate Telling(x: Origin)
    requires OriginValid(x)
  {
    forall i | x.from <= i < |x.log.messages| && Applied(x, i).failure.None? :: Tells(x.log, i)
  }

  lemma TellingIsLeading(x: Origin)
    requires OriginValid(x) && Telling(x)
    ensures Leading(x)
  {
    hide Valid, BoundOnFrames, Tells, Misleads, Applied;
    forall i | x.from <= i < |x.log.messages| && Applied(x, i).failure.None? ensures !Misleads(x.log, i) {
      TellingNeverMisleads(x.log, i);
    }
  }

  /** An honest log tells, and does not mislead. */
  lemma HonestIsTelling(x: Origin)
    requires OriginValid(x) && AllHonest(x.log)
    ensures Telling(x) && Leading(x)
  {
    hide Valid, BoundOnFrames, Honest, MessageEntry, Tells, Applied;
    forall i | x.from <= i < |x.log.messages| ensures Tells(x.log, i) {
      HonestTells(x.log, i);
    }
    TellingIsLeading(x);
  }

  /** Where images may be joined inside a message, every message is honest; else none misleads. */
  ghost predicate Trusted(x: Origin)
    requires OriginValid(x)
  {
    if x.inside then AllHonest(x.log) else Leading(x)
  }

  /** The log position says what has been applied, in every run from the origin on. */
  ghost predicate Reliable(x: Origin)
    requires OriginValid(x)
  {
    AllHonest(x.log) || (x.told && Telling(x))
  }

  /** The agent's state and its callbacks are those of replaying the log to message `m`. */
  ghost predicate HasApplied(s: AgentState, x: Origin, m: nat)
    requires OriginValid(x) && x.from <= m <= |x.log.messages|
  {
    var o := Applied(x, m);
    && o.failure.None?
    && s.core.table == o.core.table && s.core.clusterTime == o.core.clusterTime
    && s.core.leadershipTermId == o.core.leadershipTermId
    && LogCallbacks(s.journal) == x.callbacks + o.callbacks
  }

  /** The image has been read to place `p`. */
  ghost predicate ReadTo(s: AgentState, log: Log, p: Place)
    requires Valid(log) && InLog(log, p)
  {
    s.image.Some? ==>
      var image := s.image.value;
      image.frames[image.consumed..] == FramesFrom(log, p) && Position(image) == PlaceAt(log, p)
  }

  /** The builder holds what was read of the message. */
  ghost predicate Holds(s: AgentState, log: Log, p: Place)
    requires InLog(log, p)
  {
    p.frame > 0 ==> s.builder == Holding(log.messages[p.message][..p.frame])
  }

  ghost predicate JoinsView(s: AgentState, x: Origin)
    requires Valid(x.log)
  {
    s.activeLog.Some? && s.activeLog.value.image.Some? ==> IsView(x.log, s.activeLog.value.image.value, x.inside)
  }

  /** The agent has read the log to a place, and applied it so far. */
  ghost predicate Follows(s: AgentState, x: Origin, p: Place)
  {
    && OriginValid(x) && InLog(x.log, p) && x.from <= p.message
    && s.config.decode == x.log.decode
    && HasApplied(s, x, p.message)
    && ReadTo(s, x.log, p) && Holds(s, x.log, p) && JoinsView(s, x)
  }

  // ---- What the log position says ----

  /** The log position is that of place `q`: the place read to; or the start of a message such that only
      undispatched ones have been read since; or the place inside a message where the image being read was
      joined, with nothing dispatched since; or inside the message where the log was closed, and no image
      can be joined there. */
  ghost predicate PositionedAt(s: AgentState, x: Origin, q: Place, p: Place)
    requires OriginValid(x) && InLog(x.log, p)
  {
    && InLog(x.log, q) && PlaceAt(x.log, q) == s.core.logPosition && x.from <= q.message <= p.message
    && (|| q == p
        || (Silent(x.log, q.message, p.message) && (q.frame == 0 || (s.image.Some? && !Before(p, q))))
        || (s.image.None? && !x.inside && q.frame > 0 && q.message == p.message))
    && (s.image.Some? && q.frame > 0 ==> x.inside)
  }

  /** Wherever a boundary is at the log position, it is where the agent has read to, up to undispatched
      messages. */
  ghost predicate Leads(s: AgentState, x: Origin, m: nat)
    requires OriginValid(x) && m <= |x.log.messages|
  {
    forall b: nat | b <= |x.log.messages| && Boundary(x.log, b) == s.core.logPosition ::
      x.from <= b && Silent(x.log, b, m)
  }

  /** The messages that end at or below the log position are those applied, up to undispatched ones. */
  ghost predicate TellsAt(s: AgentState, x: Origin, n: nat, m: nat)
    requires OriginValid(x) && m <= |x.log.messages|
  {
    x.from <= n <= |x.log.messages| && EndsBelow(x.log, n, s.core.logPosition) && Silent(x.log, n, m)
  }

  ghost predicate PositionTells(s: AgentState, x: Origin, m: nat)
    requires OriginValid(x) && m <= |x.log.messages|
  {
    exists n: nat :: TellsAt(s, x, n, m)
  }

  ghost predicate Placed(s: AgentState, x: Origin, p: Place)
    requires OriginValid(x) && InLog(x.log, p)
  {
    if AllHonest(x.log) then exists q :: PositionedAt(s, x, q, p)
    else Leads(s, x, p.message) && (Reliable(x) ==> PositionTells(s, x, p.message))
  }

  ghost predicate WithinBound(s: AgentState, x: Origin)
    requires OriginValid(x)
  {
    x.bound.Some? && AllHonest(x.log) ==>
      && s.core.logPosition <= x.bound.value
      && (s.image.Some? ==> Position(s.image.value) <= x.bound.value)
  }

  ghost predicate Tracks(s: AgentState, x: Origin, p: Place)
  {
    Follows(s, x, p) && Trusted(x) && Placed(s, x, p) && WithinBound(s, x)
  }

  lemma WhatFollows(s: AgentState, x: Origin, p: Place)
    requires Follows(s, x, p)
    ensures OriginValid(x) && Valid(x.log) && InLog(x.log, p) && x.from <= p.message <= |x.log.messages|
    ensures s.config.decode == x.log.decode && HasApplied(s, x, p.message) && ReadTo(s, x.log, p)
  {
  }

  lemma WhatIsTracked(s: AgentState, x: Origin, p: Place)
    requires Tracks(s, x, p)
    ensures OriginValid(x) && Valid(x.log) && InLog(x.log, p) && x.from <= p.message <= |x.log.messages|
    ensures Follows(s, x, p) && Trusted(x) && Placed(s, x, p) && WithinBound(s, x)
    ensures s.config.decode == x.log.decode && HasApplied(s, x, p.message)
  {
  }

  lemma TracksLog(s: AgentState, x: Origin, p: Place)
    requires Tracks(s, x, p)
    ensures Valid(x.log) && OriginValid(x) && InLog(x.log, p)
  {
  }

  // ---- One frame ----

  /** What frame `p` of the log does in the hands of a builder that read the log to `p`. */
  lemma FrameOfLog(log: Log, p: Place, b: Builder)
    requires Valid(log) && InLog(log, p) && p.message < |log.messages|
    requires p.frame > 0 ==> b == Holding(log.messages[p.message][..p.frame])
    ensures var frames := log.messages[p.message];
            var f := frames[p.frame];
            if p.frame + 1 == |frames| then Offered(b, f) == Some(MessageOf(frames))
            else Offered(b, f).None? && After(b, f, CONTINUE) == Holding(frames[..p.frame + 1])
    ensures After(b, log.messages[p.message][p.frame], ABORT) == b || p.frame + 1 < |log.messages[p.message]|
  {
    var frames := log.messages[p.message];
    assert IsMessage(frames);
    if CompleteChain(frames) {
      if p.frame == 0 {
        BeginIsHeld(frames, b);
      } else {
        HeldMiddle(frames, p.frame);
      }
    } else {
      assert frames == [] + [frames[0]];
      JoinedSnoc([], frames[0]);
      assert Joined([]) + frames[0].payload == frames[0].payload;
    }
  }

  lemma AppliedNext(x: Origin, m: nat)
    requires OriginValid(x) && x.from <= m < |x.log.messages|
    ensures Applied(x, m + 1) == Then(Applied(x, m), MessageEntry(x.log, m))
  {
    hide Valid, MessageEntry;
    var entries := Entries(x.log, x.from, m + 1);
    assert entries[..|entries| - 1] == Entries(x.log, x.from, m);
  }

  lemma CallsAppend(s: AgentState, e: Event, position: int)
    ensures LogCallbacks(Apply(s, e, position).journal) ==
            LogCallbacks(s.journal) + Handle(s.core, e, position).callbacks
  {
    HandleCallsOnce(s.core, e, position);
    hide Handle, LogCallbacks;
    var callbacks := Handle(s.core, e, position).callbacks;
    if |callbacks| == 1 {
      assert CalledAll(callbacks) == [Called(callbacks[0])];
      LogCallbacksSnoc(s.journal, Called(callbacks[0]));
      assert callbacks == [callbacks[0]];
    } else {
      assert s.journal + CalledAll(callbacks) == s.journal;
    }
  }

  /** Applying the next message of the log. */
  lemma ApplyTracks(s: AgentState, x: Origin, m: nat)
    requires OriginValid(x) && x.from <= m < |x.log.messages| && HasApplied(s, x, m)
    requires Apply(s, MessageEntry(x.log, m).event, MessageEntry(x.log, m).position).failure.None?
    ensures HasApplied(Apply(s, MessageEntry(x.log, m).event, MessageEntry(x.log, m).position), x, m + 1)
  {
    hide Valid, MessageEntry, Boundary, BoundOnFrames;
    var e := MessageEntry(x.log, m);
    var o := Applied(x, m);
    AppliedNext(x, m);
    CallsAppend(s, e.event, e.position);
    ThenIgnoresPosition(Outcome(s.core, o.callbacks, None), o, e);
    hide Applied;
    assert x.callbacks + o.callbacks + Handle(s.core, e.event, e.position).callbacks
        == x.callbacks + (o.callbacks + Handle(s.core, e.event, e.position).callbacks);
  }

  lemma HandleFailsAlike(core: Core, other: Core, e: Event, position: int)
    requires core.table == other.table
    ensures Handle(core, e, position).failure == Handle(other, e, position).failure
  {
  }

  lemma AppliedFails(s: AgentState, x: Origin, m: nat)
    requires OriginValid(x) && x.from <= m < |x.log.messages| && HasApplied(s, x, m)
    ensures var e := MessageEntry(x.log, m);
            Applied(x, m + 1).failure == Apply(s, e.event, e.position).failure
  {
    hide Valid, BoundOnFrames, Handle, Boundary;
    var e := MessageEntry(x.log, m);
    AppliedNext(x, m);
    HandleFailsAlike(s.core, Applied(x, m).core, e.event, e.position);
  }

  lemma ApplyMoves(s: AgentState, e: Entry)
    ensures Apply(s, e.event, e.position).core.logPosition ==
            if Stamp(e).Some? then Stamp(e).value else s.core.logPosition
    ensures Stamp(e).None? && Apply(s, e.event, e.position).failure.None? ==> e.event.OtherTemplate?
    ensures Stamp(e).Some? ==> !e.event.OtherTemplate?
  {
  }

  /** More of the same message, or an undispatched message to its end. */
  lemma FurtherPlaced(s: AgentState, t: AgentState, x: Origin, p: Place, q: Place)
    requires OriginValid(x) && InLog(x.log, p) && InLog(x.log, q) && Placed(s, x, p) && !Before(q, p)
    requires Silent(x.log, p.message, q.message)
    requires t.core.logPosition == s.core.logPosition && t.image.Some? && s.image.Some?
    ensures Placed(t, x, q)
  {
    hide Valid, Boundary, PlaceAt, BoundOnFrames, AllHonest, MessageEntry;
    if AllHonest(x.log) {
      var r :| PositionedAt(s, x, r, p);
      SilentFurther(x.log, r.message, p.message, q.message);
      assert PositionedAt(t, x, r, q);
    } else {
      forall b: nat | b <= |x.log.messages| && Boundary(x.log, b) == t.core.logPosition
        ensures x.from <= b && Silent(x.log, b, q.message)
      {
        SilentFurther(x.log, b, p.message, q.message);
      }
      if Reliable(x) {
        var n: nat :| TellsAt(s, x, n, p.message);
        SilentFurther(x.log, n, p.message, q.message);
        assert TellsAt(t, x, n, q.message);
      }
    }
  }

  lemma TellsDispatched(t: AgentState, x: Origin, m: nat)
    requires OriginValid(x) && x.from <= m < |x.log.messages| && Applied(x, m).failure.None?
    requires Stamp(MessageEntry(x.log, m)) == Some(t.core.logPosition)
    requires !MessageEntry(x.log, m).event.OtherTemplate?
    ensures Telling(x) ==> PositionTells(t, x, m + 1) && Boundary(x.log, m + 1) <= t.core.logPosition
  {
    hide Valid, Boundary, BoundOnFrames, MessageEntry, Applied;
    if Telling(x) {
      assert Tells(x.log, m);
      var n: nat :| TellsTo(x.log, m, n);
      assert TellsAt(t, x, n, m + 1);
      if m + 1 < n {
        BoundariesAscend(x.log, m + 1, n);
      }
    }
  }

  /** A dispatched message takes the log position to where the agent has read to. */
  lemma DispatchedPlaced(t: AgentState, x: Origin, m: nat)
    requires OriginValid(x) && Trusted(x) && x.from <= m < |x.log.messages| && Applied(x, m).failure.None?
    requires Stamp(MessageEntry(x.log, m)) == Some(t.core.logPosition)
    requires !MessageEntry(x.log, m).event.OtherTemplate? && InLog(x.log, Place(m + 1, 0))
    ensures Placed(t, x, Place(m + 1, 0))
    ensures Reliable(x) ==> Boundary(x.log, m + 1) <= t.core.logPosition
  {
    hide Valid, Boundary, BoundOnFrames, MessageEntry, Applied, PlaceAt;
    if AllHonest(x.log) {
      EntryEnds(x.log, m);
      PlaceStarts(x.log, m + 1);
      assert PositionedAt(t, x, Place(m + 1, 0), Place(m + 1, 0));
    } else {
      TellsDispatched(t, x, m);
      assert !Misleads(x.log, m);
      forall b: nat | b <= |x.log.messages| && Boundary(x.log, b) == t.core.logPosition
        ensures x.from <= b && Silent(x.log, b, m + 1)
      {
        assert !MisleadsTo(x.log, m, b);
      }
    }
  }

  /** While an image of an honest log is read, the log position is never ahead of the place read to. */
  lemma PlacedUpTo(s: AgentState, x: Origin, p: Place)
    requires OriginValid(x) && InLog(x.log, p) && Placed(s, x, p) && s.image.Some?
    ensures AllHonest(x.log) ==> s.core.logPosition <= PlaceAt(x.log, p)
  {
    hide Valid, PlaceAt, AllHonest, BoundOnFrames, Boundary, Silent;
    if AllHonest(x.log) {
      var q :| PositionedAt(s, x, q, p);
      if Before(q, p) {
        PlacesAscend(x.log, q, p);
      }
    }
  }

  function ReadOneMore(s: AgentState): AgentState
    requires s.image.Some? && s.image.value.consumed < |s.image.value.frames|
  {
    s.(image := Some(s.image.value.(consumed := s.image.value.consumed + 1)))
  }

  ghost predicate MoreToRead(s: AgentState, x: Origin)
  {
    && s.image.Some? && s.image.value.consumed < |s.image.value.frames|
    && (x.bound.Some? ==> Position(s.image.value) < x.bound.value)
  }

  /** Where the log position can be relied upon, it has not gone back. */
  ghost predicate Ahead(s: AgentState, t: AgentState, x: Origin)
  {
    OriginValid(x) && Reliable(x) ==> s.core.logPosition <= t.core.logPosition
  }

  lemma AheadAtOnce(s: AgentState, t: AgentState, x: Origin)
    requires t.core.logPosition == s.core.logPosition
    ensures Ahead(s, t, x)
  {
  }

  lemma AheadFurther(s: AgentState, t: AgentState, u: AgentState, x: Origin)
    requires Ahead(s, t, x) && Ahead(t, u, x)
    ensures Ahead(s, u, x)
  {
  }

  ghost predicate SameTrack(s: AgentState, t: AgentState)
  {
    && t.core == s.core && t.image == s.image && t.builder == s.builder
    && t.activeLog == s.activeLog && t.config == s.config
    && LogCallbacks(t.journal) == LogCallbacks(s.journal)
  }

  lemma SameFollows(s: AgentState, t: AgentState, x: Origin, p: Place)
    requires Follows(s, x, p) && SameTrack(s, t)
    ensures Follows(t, x, p)
  {
  }

  lemma SamePlaced(s: AgentState, t: AgentState, x: Origin, p: Place)
    requires OriginValid(x) && InLog(x.log, p) && Placed(s, x, p) && WithinBound(s, x)
    requires t.core == s.core && t.image == s.image
    ensures Placed(t, x, p) && WithinBound(t, x)
  {
    hide Valid, BoundOnFrames, Silent, EndsBelow, Reliable, AllHonest, PlaceAt, Boundary;
    if AllHonest(x.log) {
      var q :| PositionedAt(s, x, q, p);
      assert PositionedAt(t, x, q, p);
    } else if Reliable(x) {
      var n: nat :| TellsAt(s, x, n, p.message);
      assert TellsAt(t, x, n, p.message);
    }
  }

  /** What tracking does not look at may change. */
  lemma SameTracks(s: AgentState, t: AgentState, x: Origin, p: Place)
    requires Tracks(s, x, p) && SameTrack(s, t)
    ensures Tracks(t, x, p)
  {
    assert t.core == s.core && t.image == s.image;
    hide *;
    WhatIsTracked(s, x, p);
    SameFollows(s, t, x, p);
    SamePlaced(s, t, x, p);
    TracksWhen(t, x, p);
  }

  lemma NextFrameRead(s: AgentState, log: Log, p: Place)
    requires Valid(log) && InLog(log, p) && ReadTo(s, log, p)
    requires s.image.Some? && s.image.value.consumed < |s.image.value.frames|
    ensures p.message < |log.messages| && InLog(log, NextPlace(log, p))
    ensures s.image.value.frames[s.image.value.consumed] == log.messages[p.message][p.frame]
    ensures PlaceAt(log, NextPlace(log, p)) == log.messages[p.message][p.frame].position
    ensures ReadTo(ReadOneMore(s), log, NextPlace(log, p))
  {
    hide Valid;
    var image := s.image.value;
    assert image.frames[image.consumed..][0] == image.frames[image.consumed];
    assert image.frames[image.consumed..][1..] == image.frames[image.consumed + 1..];
    if p.message < |log.messages| {
      NextFrame(log, p);
      MessagesHaveFrames(log);
      hide FramesFrom;
    }
  }

  /** The next frame of the image, and what the builder makes of it. */
  lemma NextFrameOffered(s: AgentState, x: Origin, p: Place)
    requires Follows(s, x, p) && s.image.Some? && s.image.value.consumed < |s.image.value.frames|
    ensures p.message < |x.log.messages| && InLog(x.log, NextPlace(x.log, p))
    ensures var f := s.image.value.frames[s.image.value.consumed];
            var frames := x.log.messages[p.message];
            && f == frames[p.frame]
            && if p.frame + 1 == |frames| then
                 && |frames| > 0 && Offered(s.builder, f) == Some(MessageOf(frames))
                 && After(s.builder, f, ABORT) == s.builder
               else Offered(s.builder, f).None? && After(s.builder, f, CONTINUE) == Holding(frames[..p.frame + 1])
    ensures ReadTo(ReadOneMore(s), x.log, NextPlace(x.log, p))
    ensures PlaceAt(x.log, NextPlace(x.log, p)) == x.log.messages[p.message][p.frame].position
  {
    hide Valid, HasApplied, IsView, IsMessage, Offered, After, ReadTo, PlaceAt, FramesFrom;
    NextFrameRead(s, x.log, p);
    FrameOfLog(x.log, p, s.builder);
  }

  lemma BuilderOnly(s: AgentState, f: Frame, accepts: bool)
    requires Offered(s.builder, f).None?
    ensures OnFragment(s, f, accepts) == (s.(builder := After(s.builder, f, CONTINUE)), CONTINUE)
  {
  }

  lemma AppliedStays(s: AgentState, t: AgentState, x: Origin, m: nat)
    requires OriginValid(x) && x.from <= m <= |x.log.messages| && HasApplied(s, x, m)
    requires t.core == s.core.(logPosition := t.core.logPosition) && LogCallbacks(t.journal) == LogCallbacks(s.journal)
    ensures HasApplied(t, x, m)
  {
  }

  /** A frame inside a message: the builder holds one frame more. */
  lemma MiddleFrameFollows(s: AgentState, x: Origin, p: Place, accepts: bool)
    requires Follows(s, x, p) && s.image.Some? && s.image.value.consumed < |s.image.value.frames|
    requires p.message < |x.log.messages| && p.frame + 1 < |x.log.messages[p.message]|
    ensures var (next, action) := OnFragment(s, s.image.value.frames[s.image.value.consumed], accepts);
            && action == CONTINUE && next == s.(builder := next.builder)
            && Follows(ReadOneMore(next), x, NextPlace(x.log, p))
  {
    hide OnFragment, After, Offered, Valid, OriginValid, FramesFrom, PlaceAt, BoundOnFrames, Holding, IsView;
    NextFrameOffered(s, x, p);
    var f := s.image.value.frames[s.image.value.consumed];
    BuilderOnly(s, f, accepts);
    var t := ReadOneMore(s.(builder := After(s.builder, f, CONTINUE)));
    AppliedStays(s, t, x, p.message);
  }

  lemma MessageHandled(s: AgentState, f: Frame, accepts: bool, d: Delivery)
    requires Offered(s.builder, f) == Some(d) && After(s.builder, f, ABORT) == s.builder
    ensures var (next, action) := OnFragment(s, f, accepts);
            var applied := Apply(s, s.config.decode(d.payload), d.position);
            && (action == ABORT ==> next == s)
            && (action != ABORT && action != THROWN ==>
                  applied.failure.None? && next == applied.(builder := next.builder))
            && (accepts && applied.failure.None? ==> action == CONTINUE)
  {
  }

  lemma ApplyKeepsImage(s: AgentState, e: Event, position: int)
    ensures var t := Apply(s, e, position);
            t.image == s.image && t.activeLog == s.activeLog && t.config == s.config && t.builder == s.builder
  {
  }

  /** The last frame of a message: the message is applied, or aborted and still to be read. */
  lemma LastFrameFollows(s: AgentState, x: Origin, p: Place, accepts: bool)
    requires Follows(s, x, p) && s.image.Some? && s.image.value.consumed < |s.image.value.frames|
    requires p.message < |x.log.messages| && p.frame + 1 == |x.log.messages[p.message]|
    ensures var (next, action) := OnFragment(s, s.image.value.frames[s.image.value.consumed], accepts);
            var e := MessageEntry(x.log, p.message);
            && (action == ABORT ==> next == s)
            && (action != ABORT && action != THROWN ==>
                  && Apply(s, e.event, e.position).failure.None?
                  && next == Apply(s, e.event, e.position).(builder := next.builder)
                  && next.image == s.image && Follows(ReadOneMore(next), x, NextPlace(x.log, p)))
            && (accepts && Apply(s, e.event, e.position).failure.None? ==> action == CONTINUE)
  {
    WhatFollows(s, x, p);
    hide OnFragment, After, Offered, Apply, Valid, OriginValid, Follows, HasApplied, ReadTo, Position;
    NextFrameOffered(s, x, p);
    var f := s.image.value.frames[s.image.value.consumed];
    var e := MessageEntry(x.log, p.message);
    MessageHandled(s, f, accepts, MessageOf(x.log.messages[p.message]));
    var (next, action) := OnFragment(s, f, accepts);
    if action != ABORT && action != THROWN {
      ApplyTracks(s, x, p.message);
      ApplyKeepsImage(s, e.event, e.position);
      LastFrameApplied(s, x, p, Apply(s, e.event, e.position), ReadOneMore(next));
    }
  }

  lemma LastFrameApplied(s: AgentState, x: Origin, p: Place, applied: AgentState, t: AgentState)
    requires Follows(s, x, p) && p.message < |x.log.messages| && NextPlace(x.log, p) == Place(p.message + 1, 0)
    requires InLog(x.log, NextPlace(x.log, p)) && HasApplied(applied, x, p.message + 1)
    requires applied.activeLog == s.activeLog && applied.config == s.config
    requires t.activeLog == applied.activeLog && t.config == applied.config && t.core == applied.core
    requires t.journal == applied.journal && s.image.Some? && s.image.value.consumed < |s.image.value.frames|
    requires t.image == ReadOneMore(s).image && ReadTo(ReadOneMore(s), x.log, NextPlace(x.log, p))
    ensures Follows(t, x, NextPlace(x.log, p))
  {
    hide Valid, FramesFrom, PlaceAt, BoundOnFrames, Position, IsView, NextPlace, LogCallbacks, Applied;
  }

  lemma NextWithinBound(s: AgentState, t: AgentState, x: Origin, p: Place)
    requires Follows(s, x, p) && MoreToRead(s, x) && WithinBound(s, x)
    requires p.message < |x.log.messages| && InLog(x.log, NextPlace(x.log, p))
    requires t.image.Some? && ReadTo(t, x.log, NextPlace(x.log, p))
    requires AllHonest(x.log) ==> t.core.logPosition <= PlaceAt(x.log, NextPlace(x.log, p))
    ensures WithinBound(t, x)
  {
    hide Valid, FramesFrom, HasApplied, AllHonest, Holding, IsView;
    MessagesHaveFrames(x.log);
    assert x.bound.Some? ==> PositionAt(x.log, p.message, p.frame) < x.bound.value;
  }

  lemma MiddleFrameTracks(s: AgentState, x: Origin, p: Place, accepts: bool)
    requires Tracks(s, x, p) && MoreToRead(s, x)
    requires p.message < |x.log.messages| && p.frame + 1 < |x.log.messages[p.message]|
    ensures var (next, action) := OnFragment(s, s.image.value.frames[s.image.value.consumed], accepts);
            && action == CONTINUE && next == s.(builder := next.builder)
            && Tracks(ReadOneMore(next), x, NextPlace(x.log, p))
  {
    WhatIsTracked(s, x, p);
    hide OnFragment, After, Offered, Valid, OriginValid, FramesFrom, PlaceAt, BoundOnFrames, Holding, Follows, Trusted;
    hide Placed, WithinBound, AllHonest;
    MiddleFrameFollows(s, x, p, accepts);
    NextFrameOffered(s, x, p);
    var t := ReadOneMore(OnFragment(s, s.image.value.frames[s.image.value.consumed], accepts).0);
    FurtherPlaced(s, t, x, p, NextPlace(x.log, p));
    PlacedUpTo(t, x, NextPlace(x.log, p));
    NextWithinBound(s, t, x, p);
  }

  /** Before a message is dispatched the log position is below its end. */
  lemma PlacedBelow(s: AgentState, x: Origin, p: Place)
    requires OriginValid(x) && InLog(x.log, p) && p.message < |x.log.messages| && Placed(s, x, p) && s.image.Some?
    requires !MessageEntry(x.log, p.message).event.OtherTemplate?
    ensures Reliable(x) ==> s.core.logPosition < Boundary(x.log, p.message + 1)
  {
    hide Valid, PlaceAt, AllHonest, BoundOnFrames, Boundary, MessageEntry;
    if AllHonest(x.log) {
      PlacedUpTo(s, x, p);
      PlaceStarts(x.log, p.message + 1);
      PlacesAscend(x.log, p, Place(p.message + 1, 0));
    } else if Reliable(x) {
      var n: nat :| TellsAt(s, x, n, p.message);
      if n < p.message {
        BoundariesAscend(x.log, n + 1, p.message + 1);
      }
    }
  }

  lemma LastFramePlaced(s: AgentState, t: AgentState, x: Origin, p: Place)
    requires OriginValid(x) && InLog(x.log, p) && x.from <= p.message < |x.log.messages|
    requires Trusted(x) && Placed(s, x, p) && Applied(x, p.message).failure.None?
    requires s.image.Some? && t.image.Some?
    requires InLog(x.log, Place(p.message + 1, 0))
    requires var e := MessageEntry(x.log, p.message);
             Apply(s, e.event, e.position).failure.None? &&
             t.core.logPosition == Apply(s, e.event, e.position).core.logPosition
    ensures Placed(t, x, Place(p.message + 1, 0)) && Ahead(s, t, x)
  {
    hide Valid, Trusted, AllHonest, Boundary, PlaceAt, MessageEntry, BoundOnFrames, Applied, Placed;
    var e, m := MessageEntry(x.log, p.message), p.message;
    ApplyMoves(s, e);
    hide Apply;
    if Stamp(e).Some? {
      DispatchedPlaced(t, x, m);
      PlacedBelow(s, x, p);
    } else {
      assert Silent(x.log, m, m + 1);
      FurtherPlaced(s, t, x, p, Place(m + 1, 0));
    }
  }

  lemma TracksWhen(s: AgentState, x: Origin, p: Place)
    requires Follows(s, x, p) && OriginValid(x) && InLog(x.log, p)
    requires Trusted(x) && Placed(s, x, p) && WithinBound(s, x)
    ensures Tracks(s, x, p)
  {
  }

  lemma LastFrameTracks(s: AgentState, x: Origin, p: Place, accepts: bool)
    requires Tracks(s, x, p) && MoreToRead(s, x)
    requires p.message < |x.log.messages| && p.frame + 1 == |x.log.messages[p.message]|
    ensures var (next, action) := OnFragment(s, s.image.value.frames[s.image.value.consumed], accepts);
            && (action == ABORT ==> next == s)
            && (action != ABORT && action != THROWN ==>
                  && Ahead(s, next, x) && next.image == s.image
                  && Tracks(ReadOneMore(next), x, NextPlace(x.log, p)))
  {
    WhatIsTracked(s, x, p);
    hide *;
    LastFrameFollows(s, x, p, accepts);
    var (next, action) := OnFragment(s, s.image.value.frames[s.image.value.consumed], accepts);
    if action != ABORT && action != THROWN {
      AppliedPosition(next, MessageEntry(x.log, p.message), s);
      LastFrameRead(s, next, x, p);
    }
  }

  lemma AppliedPosition(next: AgentState, e: Entry, s: AgentState)
    ensures next == Apply(s, e.event, e.position).(builder := next.builder) ==>
              next.core.logPosition == Apply(s, e.event, e.position).core.logPosition
  {
    hide *;
  }

  lemma LastFrameRead(s: AgentState, next: AgentState, x: Origin, p: Place)
    requires Tracks(s, x, p) && MoreToRead(s, x) && next.image == s.image
    requires p.message < |x.log.messages| && p.frame + 1 == |x.log.messages[p.message]|
    requires Follows(ReadOneMore(next), x, NextPlace(x.log, p))
    requires var e := MessageEntry(x.log, p.message);
             Apply(s, e.event, e.position).failure.None? &&
             next.core.logPosition == Apply(s, e.event, e.position).core.logPosition
    ensures Tracks(ReadOneMore(next), x, NextPlace(x.log, p)) && Ahead(s, next, x)
  {
    var t := ReadOneMore(next);
    WhatIsTracked(s, x, p);
    WhatFollows(t, x, NextPlace(x.log, p));
    AppliedSoFar(s, x, p.message);
    assert NextPlace(x.log, p) == Place(p.message + 1, 0) && t.image.Some?;
    hide *;
    LastFramePlaced(s, t, x, p);
    PlacedUpTo(t, x, NextPlace(x.log, p));
    NextWithinBound(s, t, x, p);
    TracksWhen(t, x, NextPlace(x.log, p));
  }

  lemma AppliedSoFar(s: AgentState, x: Origin, m: nat)
    requires OriginValid(x) && x.from <= m <= |x.log.messages| && HasApplied(s, x, m)
    ensures Applied(x, m).failure.None?
  {
  }

  lemma FollowsReads(s: AgentState, x: Origin, p: Place)
    requires Follows(s, x, p)
    ensures Valid(x.log) && InLog(x.log, p) && ReadTo(s, x.log, p) && JoinsView(s, x)
  {
  }

  // ---- Polls ----

  lemma FrameTracks(s: AgentState, x: Origin, p: Place, accepts: bool)
    requires Tracks(s, x, p) && MoreToRead(s, x)
    ensures var (next, action) := OnFragment(s, s.image.value.frames[s.image.value.consumed], accepts);
            && (action == ABORT ==> next == s)
            && (action != ABORT && action != THROWN ==>
                  && Ahead(s, next, x) && next.image == s.image
                  && p.message < |x.log.messages| && InLog(x.log, p)
                  && Tracks(ReadOneMore(next), x, NextPlace(x.log, p)))
  {
    WhatIsTracked(s, x, p);
    hide Tracks, Follows, OnFragment, After, Offered, Valid;
    NextFrameOffered(s, x, p);
    if p.frame + 1 == |x.log.messages[p.message]| {
      LastFrameTracks(s, x, p, accepts);
    } else {
      MiddleFrameTracks(s, x, p, accepts);
    }
  }

  lemma UnacceptedAborts(s: AgentState, f: Frame)
    requires Offered(s.builder, f).Some?
    ensures OnFragment(s, f, false).1 == ABORT
  {
  }

  lemma ThrownFails(s: AgentState, f: Frame, accepts: bool)
    requires OnFragment(s, f, accepts).1 == THROWN
    ensures OnFragment(s, f, accepts).0.failure.Some?
  {
  }

  /** Any poll, of any size and with any message aborted, moves on in the log. */
  lemma {:induction false} PollTracks(s: AgentState, x: Origin, p: Place, limit: int, available: nat, fragments: nat,
                                      accepts: nat)
    returns (q: Place)
    requires Tracks(s, x, p) && s.image.Some? && (x.bound.Some? ==> limit <= x.bound.value)
    ensures var t := Poll(s, limit, available, fragments, accepts).0;
            t.failure.None? ==> Tracks(t, x, q) && Ahead(s, t, x)
    ensures Poll(s, limit, available, fragments, accepts).1 == 0 ==> q == p
    decreases fragments
  {
    hide Tracks, OnFragment, After, Offered, NextPlace, Position, Ahead, InLog, Valid;
    var image := s.image.value;
    q := p;
    AheadAtOnce(s, s, x);
    if !(|| fragments == 0 || image.consumed >= available || image.consumed >= |image.frames|
         || Position(image) >= limit) {
      var f := image.frames[image.consumed];
      var (next, action) := OnFragment(s, f, accepts > 0);
      FrameTracks(s, x, p, accepts > 0);
      if action != ABORT && action != THROWN {
        if Offered(s.builder, f).Some? && accepts == 0 {
          UnacceptedAborts(s, f);
        }
        var left := if Offered(s.builder, f).Some? then accepts - 1 else accepts;
        q := PollTracks(ReadOneMore(next), x, NextPlace(x.log, p), limit, available, fragments - 1, left);
        AheadAtOnce(next, ReadOneMore(next), x);
        AheadFurther(s, next, ReadOneMore(next), x);
        if Poll(ReadOneMore(next), limit, available, fragments - 1, left).0.failure.None? {
          AheadFurther(s, ReadOneMore(next), Poll(ReadOneMore(next), limit, available, fragments - 1, left).0, x);
        }
      } else if action == THROWN {
        ThrownFails(s, f, accepts > 0);
      }
    }
  }

  /** Closing the log takes its position to where the image was read, if it is not ahead of that. */
  lemma CloseLogTracks(s: AgentState, x: Origin, p: Place)
    requires Tracks(s, x, p) && s.image.Some?
    ensures Tracks(CloseLog(s), x, p) && s.core.logPosition <= CloseLog(s).core.logPosition
  {
    WhatIsTracked(s, x, p);
    ClosedJournal(s);
    ReadPosition(s, x, p);
    hide Tracks, Valid, OriginValid, CloseLog, HasApplied, Boundary, Follows, Placed, Trusted, WithinBound;
    var t := CloseLog(s);
    ClosedFollows(s, t, x, p);
    PlacedUpTo(s, x, p);
    ClosedPlaced(s, t, x, p);
    ClosedWithinBound(s, t, x, p);
    TracksWhen(t, x, p);
  }

  lemma ReadPosition(s: AgentState, x: Origin, p: Place)
    requires Follows(s, x, p) && s.image.Some?
    ensures Position(s.image.value) == PlaceAt(x.log, p)
  {
  }

  lemma ClosedJournal(s: AgentState)
    requires s.image.Some?
    ensures var t := CloseLog(s);
            && LogCallbacks(t.journal) == LogCallbacks(s.journal)
            && t.core == s.core.(logPosition := Max(Position(s.image.value), s.core.logPosition))
            && t.image.None? && t.activeLog == s.activeLog && t.config == s.config && t.builder == s.builder
  {
    LogCallbacksSnoc(s.journal, Called(OnRoleChange(FOLLOWER)));
  }

  /** Without an image, only where a join would lead still matters. */
  lemma ClosedFollows(s: AgentState, t: AgentState, x: Origin, p: Place)
    requires Follows(s, x, p) && t.image.None? && t.core == s.core.(logPosition := t.core.logPosition)
    requires t.config == s.config && t.builder == s.builder && LogCallbacks(t.journal) == LogCallbacks(s.journal)
    requires JoinsView(t, x)
    ensures Follows(t, x, p)
  {
    hide Valid, FramesFrom, PlaceAt, BoundOnFrames, IsView, LogCallbacks, Applied;
  }

  lemma PlaceEndsBelow(log: Log, p: Place)
    requires Valid(log) && InLog(log, p)
    ensures p.message <= |log.messages| && EndsBelow(log, p.message, PlaceAt(log, p))
  {
    hide Valid, PlaceAt, Boundary;
    PlaceStarts(log, p.message);
    if p.frame > 0 {
      PlacesAscend(log, Place(p.message, 0), p);
    }
    if p.message < |log.messages| {
      PlaceStarts(log, p.message + 1);
      PlacesAscend(log, p, Place(p.message + 1, 0));
    }
  }

  /** Where the log position can be relied upon, the messages that end at or below it are those applied. */
  lemma PlacedTells(s: AgentState, x: Origin, p: Place)
    requires OriginValid(x) && InLog(x.log, p) && Placed(s, x, p) && Reliable(x)
    ensures PositionTells(s, x, p.message)
  {
    hide Valid, PlaceAt, BoundOnFrames, Boundary, AllHonest, EndsBelow, Telling, MessageEntry;
    if AllHonest(x.log) {
      var q :| PositionedAt(s, x, q, p);
      PlaceEndsBelow(x.log, q);
      assert TellsAt(s, x, q.message, p.message);
    }
  }

  /** The log position is that of the place read to. */
  lemma PlacedThere(t: AgentState, x: Origin, q: Place)
    requires OriginValid(x) && InLog(x.log, q) && x.from <= q.message
    requires t.core.logPosition == PlaceAt(x.log, q) && (t.image.Some? && q.frame > 0 ==> x.inside)
    ensures Placed(t, x, q)
  {
    hide Valid, PlaceAt, BoundOnFrames, Boundary, AllHonest, EndsBelow;
    if AllHonest(x.log) {
      assert PositionedAt(t, x, q, q);
    } else {
      forall b: nat | b <= |x.log.messages| && Boundary(x.log, b) == t.core.logPosition
        ensures x.from <= b && Silent(x.log, b, q.message)
      {
        PlaceStarts(x.log, b);
        SamePlace(x.log, q, Place(b, 0));
      }
      PlaceEndsBelow(x.log, q);
      assert TellsAt(t, x, q.message, q.message);
    }
  }

  lemma ClosedPlaced(s: AgentState, t: AgentState, x: Origin, p: Place)
    requires OriginValid(x) && InLog(x.log, p) && x.from <= p.message <= |x.log.messages| && Placed(s, x, p)
    requires t.image.None? && t.core.logPosition == Max(PlaceAt(x.log, p), s.core.logPosition)
    requires AllHonest(x.log) ==> s.core.logPosition <= PlaceAt(x.log, p)
    ensures Placed(t, x, p)
  {
    hide Valid, PlaceAt, AllHonest, BoundOnFrames, Boundary, EndsBelow;
    if t.core.logPosition == PlaceAt(x.log, p) {
      PlacedThere(t, x, p);
    } else if Reliable(x) {
      var n: nat :| TellsAt(s, x, n, p.message);
      assert TellsAt(t, x, n, p.message);
    }
  }

  lemma ClosedWithinBound(s: AgentState, t: AgentState, x: Origin, p: Place)
    requires OriginValid(x) && InLog(x.log, p) && WithinBound(s, x)
    requires t.image.None? && t.core.logPosition == Max(PlaceAt(x.log, p), s.core.logPosition)
    requires s.image.Some? && Position(s.image.value) == PlaceAt(x.log, p)
    ensures WithinBound(t, x)
  {
    hide AllHonest, Valid, PlaceAt;
  }

  // ---- Joins ----

  lemma AppliedBefore(x: Origin, m: nat)
    requires OriginValid(x) && x.from < m <= |x.log.messages|
    requires MessageEntry(x.log, m - 1).event.OtherTemplate?
    ensures Applied(x, m).failure.None? <==> Applied(x, m - 1).failure.None?
    ensures Applied(x, m) == Applied(x, m - 1)
  {
    hide Valid, MessageEntry, OriginValid, Applied;
    AppliedNext(x, m - 1);
    assert Applied(x, m - 1).callbacks + [] == Applied(x, m - 1).callbacks;
  }

  lemma {:induction false} SilenceChangesNothing(x: Origin, a: nat, b: nat)
    requires OriginValid(x) && x.from <= a <= b <= |x.log.messages| && Silent(x.log, a, b)
    ensures Applied(x, a) == Applied(x, b)
    decreases b
  {
    hide Valid, MessageEntry, OriginValid, Applied;
    if a < b {
      AppliedBefore(x, b);
      SilenceChangesNothing(x, a, b - 1);
    }
  }

  lemma AppliedAcross(s: AgentState, x: Origin, a: nat, b: nat)
    requires OriginValid(x) && x.from <= a <= |x.log.messages| && x.from <= b <= |x.log.messages|
    requires Silent(x.log, a, b) && HasApplied(s, x, b)
    ensures HasApplied(s, x, a)
  {
    hide Valid, MessageEntry, Applied, BoundOnFrames, Boundary;
    if a <= b {
      SilenceChangesNothing(x, a, b);
    } else {
      SilenceChangesNothing(x, b, a);
    }
  }

  /** The place itself, or the start of a message with only undispatched ones between. */
  ghost predicate Near(log: Log, q: Place, p: Place)
    requires Valid(log) && InLog(log, p)
  {
    q == p || (q.frame == 0 && q.message <= |log.messages| && Silent(log, q.message, p.message))
  }

  /** A view that can be joined starts where the agent has read to, or reads undispatched messages again
      or leaves them out. */
  lemma ViewStartsNear(s: AgentState, x: Origin, p: Place, image: Image, q: Place)
    requires Follows(s, x, p) && OriginValid(x) && InLog(x.log, p) && Trusted(x) && Placed(s, x, p) && s.image.None?
    requires ViewFrom(x.log, image, q) && (q.frame > 0 ==> x.inside) && image.joinPosition == s.core.logPosition
    ensures Near(x.log, q, p) && x.from <= q.message
  {
    hide Follows, Valid, PlaceAt, BoundOnFrames, Boundary, FramesFrom;
    if AllHonest(x.log) {
      var r :| PositionedAt(s, x, r, p);
      SamePlace(x.log, q, r);
    } else {
      PlaceStarts(x.log, q.message);
    }
  }

  /** Any view of the log may follow what has been applied, if that is what comes before it. */
  lemma JoinedFollows(s: AgentState, x: Origin, p: Place, t: AgentState, q: Place)
    requires Follows(s, x, p) && OriginValid(x) && x.from <= q.message <= |x.log.messages|
    requires HasApplied(s, x, q.message) && (q.frame > 0 ==> q == p)
    requires t.image.Some? && t.image.value.consumed == 0 && ViewFrom(x.log, t.image.value, q)
    requires t.core == s.core && t.config == s.config && t.activeLog.None? && t.builder == s.builder
    requires LogCallbacks(t.journal) == LogCallbacks(s.journal)
    ensures Follows(t, x, q)
  {
    hide Valid, PlaceAt, BoundOnFrames, Boundary, FramesFrom, HasApplied, IsView;
    AppliedStays(s, t, x, q.message);
    assert t.image.value.frames[0..] == t.image.value.frames;
  }

  lemma JoinedAt(s: AgentState, x: Origin, p: Place, t: AgentState, q: Place)
    requires Follows(s, x, p) && OriginValid(x) && InLog(x.log, p) && Trusted(x) && Placed(s, x, p)
    requires s.image.None? && WithinBound(s, x)
    requires t.image.Some? && t.image.value.consumed == 0 && ViewFrom(x.log, t.image.value, q)
    requires q.frame > 0 ==> x.inside
    requires t.image.value.joinPosition == s.core.logPosition && t.core == s.core && t.config == s.config
    requires t.activeLog.None? && t.builder == s.builder && LogCallbacks(t.journal) == LogCallbacks(s.journal)
    ensures Near(x.log, q, p) && Follows(t, x, q) && Placed(t, x, q)
  {
    ViewStartsNear(s, x, p, t.image.value, q);
    WhatFollows(s, x, p);
    hide Valid, PlaceAt, FramesFrom, HasApplied, AllHonest, Trusted, Follows, Placed;
    if q != p {
      AppliedAcross(s, x, q.message, p.message);
    }
    JoinedFollows(s, x, p, t, q);
    PlacedThere(t, x, q);
  }

  lemma JoinedWithinBound(s: AgentState, t: AgentState, x: Origin)
    requires OriginValid(x) && WithinBound(s, x) && t.core == s.core && t.image.Some? && t.image.value.consumed == 0
    requires t.image.value.joinPosition == s.core.logPosition
    ensures WithinBound(t, x)
  {
  }

  /** Joining a view at the agent's log position. */
  lemma JoinedViewTracks(s: AgentState, x: Origin, p: Place, t: AgentState, image: Image) returns (q: Place)
    requires Tracks(s, x, p) && s.image.None?
    requires Valid(x.log) && IsView(x.log, image, x.inside) && image.joinPosition == s.core.logPosition
    requires t.core == s.core && t.config == s.config && t.image == Some(image) && t.activeLog.None?
    requires t.builder == s.builder && LogCallbacks(t.journal) == LogCallbacks(s.journal)
    ensures Tracks(t, x, q) && InLog(x.log, p) && Near(x.log, q, p) && ViewFrom(x.log, image, q)
  {
    WhatIsTracked(s, x, p);
    q :| ViewFrom(x.log, image, q) && (q.frame > 0 ==> x.inside);
    hide Tracks, Follows, Placed, WithinBound, Valid, Trusted, ViewFrom, Near, OriginValid;
    JoinedAt(s, x, p, t, q);
    JoinedWithinBound(s, t, x);
    WhatFollows(t, x, q);
    TracksWhen(t, x, q);
  }

  // ---- The duty cycle ----

  /** Where images may be joined inside a message: one is dropped for a new join only while the log
      position is a message boundary, or is where that image has been read to. */
  ghost predicate Calm(s: AgentState, i: Input, x: Origin)
    requires Valid(x.log)
  {
    x.inside && AtAdapter(s, i).Some? && i.cycle.adapterMessage.JoinLog? ==> CalmDrop(s, x)
  }

  ghost predicate CalmDrop(s: AgentState, x: Origin)
    requires Valid(x.log)
  {
    s.image.Some? ==> Position(s.image.value) == s.core.logPosition || OnBoundary(x.log, s.core.logPosition)
  }

  ghost predicate OnBoundary(log: Log, position: int)
    requires Valid(log)
  {
    exists m: nat :: m <= |log.messages| && Boundary(log, m) == position
  }

  ghost predicate SeesViews(c: Cycle, x: Origin)
    requires Valid(x.log)
  {
    c.logImage.Some? ==> IsView(x.log, c.logImage.value, x.inside)
  }

  /** An image dropped for a join. */
  lemma DroppedTracks(s: AgentState, t: AgentState, x: Origin, p: Place)
    requires Tracks(s, x, p) && t.image.None? && t.core == s.core && t.config == s.config && t.builder == s.builder
    requires LogCallbacks(t.journal) == LogCallbacks(s.journal) && JoinsView(t, x)
    requires x.inside ==> CalmDrop(s, x)
    ensures Tracks(t, x, p)
  {
    WhatIsTracked(s, x, p);
    hide Tracks, Follows, Valid, Trusted, OriginValid, HasApplied;
    ClosedFollows(s, t, x, p);
    DroppedPlaced(s, t, x, p);
    hide Placed;
    DroppedWithinBound(s, t, x);
    TracksWhen(t, x, p);
  }

  lemma DroppedWithinBound(s: AgentState, t: AgentState, x: Origin)
    requires OriginValid(x) && WithinBound(s, x) && t.core == s.core && t.image.None?
    ensures WithinBound(t, x)
  {
  }

  lemma DroppedPlaced(s: AgentState, t: AgentState, x: Origin, p: Place)
    requires Follows(s, x, p) && OriginValid(x) && InLog(x.log, p) && Placed(s, x, p)
    requires t.image.None? && t.core.logPosition == s.core.logPosition && (x.inside ==> CalmDrop(s, x))
    ensures Placed(t, x, p)
  {
    if s.image.Some? {
      ReadPosition(s, x, p);
    }
    hide Follows, Valid, PlaceAt, AllHonest, BoundOnFrames, Boundary;
    if AllHonest(x.log) {
      var q :| PositionedAt(s, x, q, p);
      if s.image.Some? && q.frame > 0 {
        if m: nat :| m <= |x.log.messages| && Boundary(x.log, m) == s.core.logPosition {
          PlaceStarts(x.log, m);
          SamePlace(x.log, q, Place(m, 0));
        } else {
          SamePlace(x.log, q, p);
        }
      }
      assert PositionedAt(t, x, q, p);
    } else if Reliable(x) {
      var n: nat :| TellsAt(s, x, n, p.message);
      assert TellsAt(t, x, n, p.message);
    }
  }

  lemma SendAckSameTrack(s: AgentState, relevantId: int, results: seq<int>)
    ensures SameTrack(s, SendAck(s, relevantId, results).0)
  {
    var t := SendAck(s, relevantId, results).0;
    if TryClaim(results).CLAIMED? {
      LogCallbacksSnoc(s.journal, t.journal[|s.journal|]);
    }
  }

  /** A message from the consensus module leaves all that is tracked alone, or drops the image. */
  lemma AdapterMessageOutcome(s: AgentState, c: Cycle)
    ensures var t := Told(s, c);
            || SameTrack(s, t)
            || (&& c.adapterMessage.JoinLog? && t.image.None? && t.core == s.core && t.config == s.config
                && t.builder == s.builder && LogCallbacks(t.journal) == LogCallbacks(s.journal)
                && t.activeLog.Some? && t.activeLog.value.image.None?)
  {
    LogCallbacksSnoc(s.journal, AdapterPolled(c.nowNs));
    hide LogCallbacks;
    var t := Told(s, c);
    if !c.adapterMessage.JoinLog? || RoleOf(c.adapterMessage.role).None? {
      assert t.core == s.core && t.image == s.image && t.activeLog == s.activeLog;
    }
  }

  lemma ToldTracks(s: AgentState, x: Origin, p: Place, c: Cycle)
    requires Tracks(s, x, p) && Valid(x.log) && (x.inside && c.adapterMessage.JoinLog? ==> CalmDrop(s, x))
    ensures Tracks(Told(s, c), x, p) && Told(s, c).core == s.core
  {
    hide Tracks, Valid, Told, SameTrack, CalmDrop;
    AdapterMessageOutcome(s, c);
    ToldKeepsCore(s, c);
    if SameTrack(s, Told(s, c)) {
      SameTracks(s, Told(s, c), x, p);
    } else {
      DroppedTracks(s, Told(s, c), x, p);
    }
  }

  lemma ToldKeepsCore(s: AgentState, c: Cycle)
    ensures Told(s, c).core == s.core
  {
  }

  lemma ResolvedToView(a: ActiveLog, c: Cycle, x: Origin)
    requires Valid(x.log) && SeesViews(c, x) && (a.image.Some? ==> IsView(x.log, a.image.value, x.inside))
    ensures ResolveJoin(a, c).image.Some? ==> IsView(x.log, ResolveJoin(a, c).image.value, x.inside)
  {
    hide Valid, IsView;
  }

  /** What joining an image leaves alone, and what it took the image for. */
  lemma JoinOutcome(s: AgentState, c: Cycle)
    requires s.activeLog.Some?
    ensures var (t, joined) := JoinActiveLog(s, c);
            var a := ResolveJoin(s.activeLog.value, c);
            && t.core == s.core && t.config == s.config && LogCallbacks(t.journal) == LogCallbacks(s.journal)
            && t.builder == s.builder
            && (joined ==> a.image.Some? && t.image == a.image && a.image.value.joinPosition == s.core.logPosition)
            && (!joined && t.failure.None? ==> t == s.(activeLog := Some(a)))
  {
    var a := ResolveJoin(s.activeLog.value, c);
    var joined := s.(image := a.image, maxLogPosition := a.maxLogPosition, activeLog := Some(a.(subscribed := false)));
    SendAckSameTrack(joined, NULL_VALUE, c.joinClaims);
    var acked := SendAck(joined, NULL_VALUE, c.joinClaims).0;
    LogCallbacksSnoc(acked.journal, ClosingReset);
    LogCallbacksSnoc(acked.journal, Called(OnRoleChange(a.role)));
    LogCallbacksSnoc(acked.journal + [ClosingReset], Called(OnRoleChange(a.role)));
    hide LogCallbacks, TryClaim, ResolveJoin;
  }

  lemma JoinsViewOf(s: AgentState, x: Origin, p: Place)
    requires Tracks(s, x, p)
    ensures Valid(x.log) && JoinsView(s, x) && InLog(x.log, p)
  {
  }

  lemma JoiningTracks(told: AgentState, x: Origin, p: Place, c: Cycle) returns (q: Place)
    requires Tracks(told, x, p) && Valid(x.log) && SeesViews(c, x) && told.activeLog.Some? && told.image.None?
    ensures InLog(x.log, p) && Near(x.log, q, p)
    ensures var (joining, joined) := JoinActiveLog(told, c);
            && joining.core == told.core
            && (joined ==> joining.image.Some? && ViewFrom(x.log, joining.image.value, q))
            && (joining.failure.None? && joined ==> Tracks(joining.(activeLog := None), x, q))
            && (joining.failure.None? && !joined ==> q == p && Tracks(joining, x, p))
  {
    JoinsViewOf(told, x, p);
    ResolvedToView(told.activeLog.value, c, x);
    JoinOutcome(told, c);
    hide Tracks, Valid, OriginValid, JoinActiveLog, SeesViews, ResolveJoin, IsView, ViewFrom, LogCallbacks;
    var (joining, joined) := JoinActiveLog(told, c);
    var a := ResolveJoin(told.activeLog.value, c);
    q := p;
    if joined {
      q := JoinedViewTracks(told, x, p, joining.(activeLog := None), a.image.value);
    } else if joining.failure.None? {
      UnjoinedTracks(told, joining, x, p);
    }
  }

  lemma UnjoinedTracks(s: AgentState, t: AgentState, x: Origin, p: Place)
    requires Tracks(s, x, p) && s.image.None? && t == s.(activeLog := t.activeLog) && Valid(x.log) && JoinsView(t, x)
    ensures Tracks(t, x, p)
  {
    hide Tracks, Valid, JoinsView;
    DroppedTracks(s, t, x, p);
  }

  lemma AdapterTracks(s: AgentState, x: Origin, p: Place, c: Cycle) returns (q: Place)
    requires Tracks(s, x, p) && Valid(x.log) && SeesViews(c, x)
    requires x.inside && c.adapterMessage.JoinLog? ==> CalmDrop(s, x)
    ensures PollServiceAdapter(s, c).core == s.core && InLog(x.log, p) && Near(x.log, q, p)
    ensures PollServiceAdapter(s, c).failure.None? ==> Tracks(PollServiceAdapter(s, c), x, q)
  {
    JoinsViewOf(s, x, p);
    hide Tracks, Valid, OriginValid, OnAdapterMessage, JoinActiveLog, SeesViews, JoinsView, CalmDrop, LogCallbacks;
    var told := Told(s, c);
    ToldTracks(s, x, p, c);
    q := p;
    if told.failure.None? {
      SendAckSameTrack(told, NULL_VALUE, c.requestClaims);
      SameTracks(told, SendAck(told, NULL_VALUE, c.requestClaims).0, x, p);
      if told.activeLog.Some? && told.image.None? {
        q := JoiningTracks(told, x, p, c);
        var joining := JoinActiveLog(told, c).0;
        if joining.failure.None? && !JoinActiveLog(told, c).1 {
          SendAckSameTrack(joining, NULL_VALUE, c.requestClaims);
          SameTracks(joining, SendAck(joining, NULL_VALUE, c.requestClaims).0, x, p);
        }
        hide Near;
      }
    }
  }

  lemma PollLogTracks(s: AgentState, x: Origin, p: Place, c: Cycle) returns (q: Place)
    requires Tracks(s, x, p) && (x.bound.Some? ==> c.commitPosition <= x.bound.value)
    ensures var t := PollLog(s, c);
            && (t.failure.None? ==> Tracks(t, x, q) && Ahead(s, t, x))
            && (t.image.None? ==> q == p)
  {
    hide Tracks, Poll, CloseLog, Ahead;
    q := p;
    AheadAtOnce(s, s, x);
    if s.image.Some? {
      var available := if c.imageClosed then 0 else c.available;
      q := PollTracks(s, x, p, c.commitPosition, available, s.config.fragmentLimit, c.accepts);
      var (read, polled) := Poll(s, c.commitPosition, available, s.config.fragmentLimit, c.accepts);
      if read.failure.None? && polled == 0 && IsDone(read, c) {
        CloseLogTracks(read, x, q);
        ClosedAhead(read, x);
        AheadFurther(s, read, CloseLog(read), x);
      }
    }
  }

  lemma ClosedAhead(s: AgentState, x: Origin)
    requires s.image.Some? && s.core.logPosition <= CloseLog(s).core.logPosition
    ensures Ahead(s, CloseLog(s), x)
  {
  }

  lemma PollAllTracks(s: AgentState, x: Origin, p: Place, c: Cycle) returns (q: Place)
    requires Tracks(s, x, p) && Valid(x.log) && SeesViews(c, x) && (x.bound.Some? ==> c.commitPosition <= x.bound.value)
    requires x.inside && PollsAdapter(s, c) && c.adapterMessage.JoinLog? ==> CalmDrop(s, x)
    ensures InLog(x.log, p)
    ensures var t := PollAll(s, c);
            t.failure.None? ==> Tracks(t, x, q) && Ahead(s, t, x) && (t.image.None? ==> Near(x.log, q, p))
  {
    JoinsViewOf(s, x, p);
    hide Tracks, PollServiceAdapter, PollLog, SeesViews, Valid, Ahead, LogCallbacks;
    var (clock, ticked) := CheckForClockTick(s, c);
    ClockSameTrack(s, c);
    SameTracks(s, clock, x, p);
    AheadAtOnce(s, clock, x);
    q := p;
    if clock.failure.None? {
      var told := if ticked then PollServiceAdapter(clock, c) else clock;
      if ticked {
        q := AdapterTracks(clock, x, p, c);
      }
      if told.failure.None? {
        AheadAtOnce(s, told, x);
        q := PollLogTracks(told, x, q, c);
        if PollLog(told, c).failure.None? {
          AheadFurther(s, told, PollLog(told, c), x);
        }
      }
    }
  }

  lemma ClockSameTrack(s: AgentState, c: Cycle)
    ensures var clock := CheckForClockTick(s, c).0;
            SameTrack(s, clock) && clock.core == s.core && clock.image == s.image
  {
    hide LogCallbacks;
  }

  lemma AskSameTrack(s: AgentState, c: SnapshotCycle)
    requires s.snapshot.Some?
    ensures SameTrack(s, AskService(s, c))
  {
    LogCallbacksSnoc(s.journal, Called(OnTakeSnapshot));
  }

  lemma SnapshotWorkSameTrack(s: AgentState, c: SnapshotCycle)
    requires s.snapshot.Some?
    ensures SameTrack(s, SnapshotWork(s, c).0)
  {
    hide LogCallbacks, TryClaim, ArchiveThrows;
    var snapshot := s.snapshot.value.(published := true);
    if && (s.snapshot.value.published || c.publicationFound) && (snapshot.recordingId.Some? || c.recordingId.Some?)
       && !ArchiveThrows(s.snapshot.value, c) {
      var writing := if snapshot.recordingId.None? then WriteState(s, snapshot, c) else (snapshot, None);
      if writing.1.None? {
        var written := s.(snapshot := Some(writing.0));
        AskSameTrack(written, c);
        SendAckSameTrack(AskService(written, c), writing.0.recordingId.value, c.ackClaims);
      }
    }
  }

  /** The only images there are to join are views of the log; and commit positions stay within the bound,
      if there is one. */
  ghost predicate InputFits(i: Input, x: Origin)
    requires Valid(x.log)
  {
    i.Duty? ==> SeesViews(i.cycle, x) && (x.bound.Some? ==> i.cycle.commitPosition <= x.bound.value)
  }

  lemma ReadyTracks(s: AgentState, ready: AgentState, x: Origin, p: Place, c: Cycle) returns (q: Place)
    requires Tracks(ready, x, p) && Valid(x.log) && InputFits(Duty(c), x)
    requires ready.core == s.core && ready.image == s.image
    requires x.inside && PollsAdapter(ready, c) && c.adapterMessage.JoinLog? ==> CalmDrop(s, x)
    ensures InLog(x.log, p)
    ensures var t := PollAll(ready, c);
            t.failure.None? ==> Tracks(t, x, q) && Ahead(s, t, x) && (t.image.None? ==> Near(x.log, q, p))
  {
    JoinsViewOf(ready, x, p);
    hide Tracks, PollAll, SeesViews, Valid, Ahead;
    q := PollAllTracks(ready, x, p, c);
    AheadAtOnce(s, ready, x);
    if PollAll(ready, c).failure.None? {
      AheadFurther(s, ready, PollAll(ready, c), x);
    }
  }

  lemma StepTracks(s: AgentState, x: Origin, p: Place, i: Input) returns (q: Place)
    requires Tracks(s, x, p) && Valid(x.log) && InputFits(i, x) && Calm(s, i, x)
    ensures InLog(x.log, p)
    ensures var t := Step(s, i);
            t.failure.None? ==> Tracks(t, x, q) && Ahead(s, t, x) && (t.image.None? ==> Near(x.log, q, p))
  {
    JoinsViewOf(s, x, p);
    q := p;
    if i.Duty? && s.failure.None? {
      hide Tracks, PollAll, SnapshotWork, Valid, Ahead, CalmDrop, InputFits, Near;
      if s.snapshot.Some? {
        q := SnapshottingTracks(s, x, p, i.cycle);
      } else {
        q := ReadyTracks(s, s, x, p, i.cycle);
      }
    } else {
      hide Tracks, Valid, Ahead, LogCallbacks, TryClaim;
      IdleSameTrack(s, i);
      SameTracks(s, Step(s, i), x, p);
      AheadAtOnce(s, Step(s, i), x);
    }
  }

  lemma IdleSameTrack(s: AgentState, i: Input)
    requires i.Duty? ==> s.failure.Some?
    ensures SameTrack(s, Step(s, i))
  {
    hide TryClaim;
    if i.Close? {
      LogCallbacksSnoc(s.journal, Sent(CloseSession(i.clusterSessionId)));
    }
  }

  lemma SnapshottingTracks(s: AgentState, x: Origin, p: Place, c: Cycle) returns (q: Place)
    requires Tracks(s, x, p) && Valid(x.log) && InputFits(Duty(c), x) && Calm(s, Duty(c), x)
    requires s.snapshot.Some? && s.failure.None?
    ensures InLog(x.log, p)
    ensures var t := DoWork(s, c);
            t.failure.None? ==> Tracks(t, x, q) && Ahead(s, t, x) && (t.image.None? ==> Near(x.log, q, p))
  {
    JoinsViewOf(s, x, p);
    SnapshotWorkSameTrack(s, c.snapshot);
    hide Tracks, PollAll, SnapshotWork, Valid, Ahead, CalmDrop, InputFits, LogCallbacks, CheckForClockTick;
    q := p;
    var (worked, done) := SnapshotWork(s, c.snapshot);
    SameTracks(s, worked, x, p);
    AheadAtOnce(s, worked, x);
    if done {
      SameTracks(s, worked.(snapshot := None), x, p);
      q := ReadyTracks(s, worked.(snapshot := None), x, p, c);
    }
  }

  ghost predicate CalmRun(s: AgentState, inputs: seq<Input>, x: Origin)
    requires Valid(x.log)
  {
    forall n | 0 <= n < |inputs| :: Calm(Run(s, inputs[..n]), inputs[n], x)
  }

  /** Inputs a run may meet. */
  ghost predicate Fits(s: AgentState, inputs: seq<Input>, x: Origin)
    requires Valid(x.log)
  {
    (forall i | i in inputs :: InputFits(i, x)) && CalmRun(s, inputs, x)
  }

  lemma FitsSnoc(s: AgentState, inputs: seq<Input>, i: Input, x: Origin)
    requires Valid(x.log)
    ensures Fits(s, inputs + [i], x) <==> Fits(s, inputs, x) && InputFits(i, x) && Calm(Run(s, inputs), i, x)
  {
    hide Valid, InputFits, Calm, Run;
    var all := inputs + [i];
    assert all[|inputs|] == i && all[..|inputs|] == inputs;
    assert forall n | 0 <= n < |inputs| :: all[n] == inputs[n] && all[..n] == inputs[..n];
  }

  lemma {:induction false} RunTracks(s: AgentState, x: Origin, p: Place, inputs: seq<Input>) returns (q: Place)
    requires Tracks(s, x, p) && s.failure.None? && Valid(x.log) && Fits(s, inputs, x)
    ensures var t := Run(s, inputs); t.failure.None? ==> Tracks(t, x, q) && Ahead(s, t, x)
    decreases |inputs|
  {
    hide Tracks, Step, InputFits, Calm, Valid, Ahead, Fits;
    q := p;
    AheadAtOnce(s, s, x);
    if |inputs| > 0 {
      var init, last := inputs[..|inputs| - 1], inputs[|inputs| - 1];
      assert inputs == init + [last];
      FitsSnoc(s, init, last, x);
      q := RunTracks(s, x, p, init);
      FailureStays(Run(s, init), last);
      if Run(s, inputs).failure.None? {
        q := StepTracks(Run(s, init), x, q, last);
        AheadFurther(s, Run(s, init), Run(s, inputs), x);
      }
    }
  }

  lemma FailureStays(s: AgentState, i: Input)
    ensures s.failure.Some? ==> Step(s, i).failure.Some?
  {
  }

  lemma StartTracks(s: AgentState, x: Origin)
    requires OriginValid(x) && Trusted(x) && s.core == x.core && s.config.decode == x.log.decode
    requires s.image.None? && s.activeLog.None? && LogCallbacks(s.journal) == x.callbacks
    ensures Tracks(s, x, Place(x.from, 0))
  {
    StartFollows(s, x);
    PlaceStarts(x.log, x.from);
    hide Valid, FramesFrom, Follows, Trusted, PlaceAt, Placed, AllHonest;
    PlacedThere(s, x, Place(x.from, 0));
  }

  lemma StartFollows(s: AgentState, x: Origin)
    requires OriginValid(x) && s.core == x.core && s.config.decode == x.log.decode
    requires s.image.None? && s.activeLog.None? && LogCallbacks(s.journal) == x.callbacks
    ensures Follows(s, x, Place(x.from, 0))
  {
    PlaceStarts(x.log, x.from);
    assert Entries(x.log, x.from, x.from) == [];
    hide Valid, BoundOnFrames, Boundary, FramesFrom;
    assert x.callbacks + [] == x.callbacks;
  }
}
