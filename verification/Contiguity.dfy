/** However the log reaches the agent — in frames, in polls of any size, with messages aborted and
    offered again, through images that come and go — what it has applied is the log itself. */
module Contiguity {
  import opened Aeron
  import opened SessionTable
  import opened ReplicatedState
  import opened Reassembly
  import opened Publications
  import opened AgentSpec
  import opened LogViews
  import opened Tracking
  import opened PendingAcks

  /** The agent as it starts: it has the state and the callbacks of the origin, and no image yet. */
  ghost predicate Starts(s: AgentState, x: Origin)
  {
    && s.core == x.core && s.config.decode == x.log.decode && s.failure.None?
    && s.image.None? && s.activeLog.None? && LogCallbacks(s.journal) == x.callbacks
  }

  // ---- By the log position ----

  /** The agent has applied exactly the messages that end at or below its log position. */
  ghost predicate AppliedToPosition(s: AgentState, x: Origin, n: nat)
    requires OriginValid(x)
  {
    x.from <= n <= |x.log.messages| && EndsBelow(x.log, n, s.core.logPosition) && HasApplied(s, x, n)
  }

  lemma TrackedIsApplied(s: AgentState, x: Origin, p: Place) returns (n: nat)
    requires Tracks(s, x, p) && OriginValid(x) && Reliable(x)
    ensures AppliedToPosition(s, x, n)
  {
    WhatIsTracked(s, x, p);
    hide Tracks, Follows, Valid, BoundOnFrames, Boundary, HasApplied, Reliable, EndsBelow, Placed;
    PlacedTells(s, x, p);
    n :| TellsAt(s, x, n, p.message);
    AppliedAcross(s, x, n, p.message);
  }

  /** Only one count of messages fits a position, so what was applied is determined by it. */
  lemma AppliedIsDetermined(s: AgentState, x: Origin, n: nat, m: nat)
    requires OriginValid(x) && AppliedToPosition(s, x, n) && AppliedToPosition(s, x, m)
    ensures n == m
  {
    hide Valid, Boundary, BoundOnFrames, HasApplied;
    if n < m {
      BoundariesInOrder(x.log, n + 1, m);
    } else if m < n {
      BoundariesInOrder(x.log, m + 1, n);
    }
  }

  lemma BoundariesInOrder(log: Log, b: nat, m: nat)
    requires Valid(log) && b <= m <= |log.messages|
    ensures Boundary(log, b) <= Boundary(log, m)
  {
    hide Valid, Boundary;
    if b < m {
      BoundariesAscend(log, b, m);
    }
  }

  // ---- By the frames read ----

  /** The frames left in the image are those of the log from a place on. */
  ghost predicate LeftFrom(log: Log, image: Image, p: Place)
    requires Valid(log)
  {
    InLog(log, p) && image.frames[image.consumed..] == FramesFrom(log, p)
  }

  /** Of the log's messages exactly the first `m` have had their last frame read from the image: the
      frames left in it are those from inside, or the start of, message `m` on. */
  ghost predicate WhollyRead(log: Log, image: Image, m: nat)
    requires Valid(log)
  {
    exists j: nat :: LeftFrom(log, image, Place(m, j))
  }

  lemma {:induction false} FramesLeftShrink(log: Log, m: nat, n: nat, j: nat)
    requires Valid(log) && m < n && InLog(log, Place(n, j)) && m < |log.messages|
    ensures InLog(log, Place(m + 1, 0)) && |FramesFrom(log, Place(n, j))| <= |FramesFrom(log, Place(m + 1, 0))|
    decreases n - m
  {
    MessagesHaveFrames(log);
    hide Valid, FramesFrom;
    if m + 1 < n {
      FramesLeftShrink(log, m + 1, n, j);
      FramesOfMessage(log, Place(m + 1, 0));
    } else if j > 0 {
      FramesOfMessage(log, Place(n, j));
      FramesOfMessage(log, Place(n, 0));
    }
  }

  lemma FewerFramesLeft(log: Log, p: Place, q: Place)
    requires Valid(log) && InLog(log, p) && InLog(log, q) && Before(p, q)
    ensures |FramesFrom(log, q)| < |FramesFrom(log, p)|
  {
    hide Valid;
    FramesOfMessage(log, p);
    if p.message == q.message {
      FramesOfMessage(log, q);
    } else {
      FramesLeftShrink(log, p.message, q.message, q.frame);
    }
  }

  lemma OnePlaceLeft(log: Log, image: Image, p: Place, q: Place)
    requires Valid(log) && LeftFrom(log, image, p) && LeftFrom(log, image, q)
    ensures p == q
  {
    hide Valid, FramesFrom;
    if Before(p, q) {
      FewerFramesLeft(log, p, q);
    } else if Before(q, p) {
      FewerFramesLeft(log, q, p);
    }
  }

  /** The count is determined by the image. */
  lemma WhollyReadIsDetermined(log: Log, image: Image, m: nat, n: nat)
    requires Valid(log) && WhollyRead(log, image, m) && WhollyRead(log, image, n)
    ensures m == n
  {
    var j: nat :| LeftFrom(log, image, Place(m, j));
    var k: nat :| LeftFrom(log, image, Place(n, k));
    hide Valid, LeftFrom;
    OnePlaceLeft(log, image, Place(m, j), Place(n, k));
  }

  /** Nothing left in the image: the whole log has been read. */
  lemma AllRead(log: Log, image: Image, m: nat)
    requires Valid(log) && WhollyRead(log, image, m) && image.consumed == |image.frames|
    ensures m == |log.messages|
  {
    var j: nat :| LeftFrom(log, image, Place(m, j));
    hide Valid;
    assert image.frames[image.consumed..] == [];
    if m < |log.messages| {
      NextFrame(log, Place(m, j));
    }
  }

  lemma TrackedIsRead(s: AgentState, x: Origin, p: Place)
    requires Follows(s, x, p) && s.image.Some?
    ensures x.from <= p.message <= |x.log.messages| && OriginValid(x) && HasApplied(s, x, p.message)
    ensures LeftFrom(x.log, s.image.value, p) && WhollyRead(x.log, s.image.value, p.message)
  {
    hide Valid, FramesFrom, HasApplied, PlaceAt;
    assert LeftFrom(x.log, s.image.value, Place(p.message, p.frame));
  }

  /** What the frames read so far from the image come to, and when all have been read. */
  ghost predicate AppliedAsRead(s: AgentState, x: Origin)
    requires OriginValid(x)
  {
    s.image.Some? ==>
      && (exists m :: x.from <= m <= |x.log.messages| && WhollyRead(x.log, s.image.value, m) && HasApplied(s, x, m))
      && (s.image.value.consumed == |s.image.value.frames| ==> HasApplied(s, x, |x.log.messages|))
  }

  lemma TrackedAsRead(s: AgentState, x: Origin, p: Place)
    requires Tracks(s, x, p)
    ensures OriginValid(x) && AppliedAsRead(s, x)
  {
    WhatIsTracked(s, x, p);
    hide Tracks, Follows, Valid, HasApplied, WhollyRead, LeftFrom;
    if s.image.Some? {
      TrackedIsRead(s, x, p);
      if s.image.value.consumed == |s.image.value.frames| {
        AllRead(x.log, s.image.value, p.message);
      }
    }
  }

  // ---- Whole runs ----

  /** What a log gives besides whose messages tell: the log position says what was applied and does not go
      back; and if the log is honest, it stays within the commit positions. */
  ghost predicate Positioned(s: AgentState, t: AgentState, x: Origin)
    requires OriginValid(x)
  {
    && (exists n :: AppliedToPosition(t, x, n))
    && s.core.logPosition <= t.core.logPosition
    && (x.bound.Some? && AllHonest(x.log) ==> t.core.logPosition <= x.bound.value)
  }

  lemma TrackedIsPositioned(s: AgentState, t: AgentState, x: Origin, p: Place)
    requires Tracks(t, x, p) && Ahead(s, t, x)
    ensures OriginValid(x) && (Reliable(x) ==> Positioned(s, t, x))
  {
    WhatIsTracked(t, x, p);
    hide Tracks, Follows, Valid, AllHonest, AppliedToPosition, Reliable;
    if Reliable(x) {
      var n := TrackedIsApplied(t, x, p);
    }
  }

  /** Every image a view of one log, in which no message misleads: whatever order joins, polls of any
      size, aborted messages, snapshots and closed images come in, the agent's state and callbacks are,
      while it reads an image, those of replaying the log from where it started through exactly the
      messages whose last frame it has read; and with every frame read, through the whole log. If every
      message tells, they are at every moment those of exactly the messages that end at or below the log
      position, which never goes back. If the log is honest, that is never beyond what was committed; and
      then images may be joined inside a message too, as long as none is dropped there half read. */
  lemma ContiguousRun(s: AgentState, x: Origin, inputs: seq<Input>)
    requires OriginValid(x) && Trusted(x) && Starts(s, x) && Fits(s, inputs, x)
    ensures var t := Run(s, inputs);
            t.failure.None? ==> AppliedAsRead(t, x) && (Reliable(x) ==> Positioned(s, t, x))
  {
    assert Valid(x.log);
    hide Tracks, OriginValid, Valid, Fits, Positioned, Run, AppliedAsRead, Trusted, Reliable;
    StartTracks(s, x);
    var q := RunTracks(s, x, Place(x.from, 0), inputs);
    var t := Run(s, inputs);
    if t.failure.None? {
      TrackedAsRead(t, x, q);
      TrackedIsPositioned(s, t, x, q);
    }
  }

  // ---- Acks over a run ----

  ghost predicate AcksInOrder(journal: seq<Note>)
  {
    forall i, j | 0 <= i < j < |journal| ::
      journal[i].Sent? && journal[i].request.ServiceAck? && journal[j].Sent? && journal[j].request.ServiceAck? ==>
        journal[i].request.logPosition <= journal[j].request.logPosition
  }

  ghost predicate AcksUpTo(journal: seq<Note>, position: int)
  {
    forall i | 0 <= i < |journal| ::
      journal[i].Sent? && journal[i].request.ServiceAck? ==> journal[i].request.logPosition <= position
  }

  lemma StepSendsAtPosition(s: AgentState, i: Input)
    ensures s.journal <= Step(s, i).journal
    ensures forall k | |s.journal| <= k < |Step(s, i).journal| :: IsAckAt(Step(s, i).journal[k], s.core.logPosition)
    ensures s.failure.Some? ==> forall k | |s.journal| <= k < |Step(s, i).journal| ::
                !(Step(s, i).journal[k].Sent? && Step(s, i).journal[k].request.ServiceAck?)
  {
    if i.Duty? && s.failure.None? {
      OnlyAcksClear(s, i.cycle);
    }
  }

  lemma AppendInOrder(journal: seq<Note>, more: seq<Note>, position: int)
    requires AcksInOrder(journal) && AcksUpTo(journal, position) && journal <= more
    requires forall k | |journal| <= k < |more| :: IsAckAt(more[k], position)
    ensures AcksInOrder(more) && AcksUpTo(more, position)
  {
    forall i | 0 <= i < |journal| ensures more[i] == journal[i] {}
  }

  lemma AppendNone(journal: seq<Note>, more: seq<Note>)
    requires AcksInOrder(journal) && journal <= more
    requires forall k | |journal| <= k < |more| :: !(more[k].Sent? && more[k].request.ServiceAck?)
    ensures AcksInOrder(more)
  {
    forall i | 0 <= i < |journal| ensures more[i] == journal[i] {}
  }

  /** Over a log that tells, the positions acknowledged to the consensus module never go back. */
  lemma {:induction false} AcksNeverGoBack(s: AgentState, x: Origin, p: Place, inputs: seq<Input>)
    requires Tracks(s, x, p) && s.failure.None? && OriginValid(x) && Reliable(x) && Fits(s, inputs, x)
    requires AcksInOrder(s.journal) && AcksUpTo(s.journal, s.core.logPosition)
    ensures var t := Run(s, inputs);
            AcksInOrder(t.journal) && (t.failure.None? ==> AcksUpTo(t.journal, t.core.logPosition))
    decreases |inputs|
  {
    hide *;
    TracksLog(s, x, p);
    if |inputs| > 0 {
      var init, last := inputs[..|inputs| - 1], inputs[|inputs| - 1];
      assert inputs == init + [last];
      RunSnoc(s, init, last);
      FitsSnoc(s, init, last, x);
      AcksNeverGoBack(s, x, p, init);
      if Run(s, init).failure.None? {
        var q := RunTracks(s, x, p, init);
        StepAcksInOrder(Run(s, init), x, q, last);
      } else {
        FailedAcksNothing(Run(s, init), last);
      }
    } else {
      RunNone(s, inputs);
    }
  }

  lemma FailedAcksNothing(s: AgentState, i: Input)
    requires s.failure.Some? && AcksInOrder(s.journal)
    ensures AcksInOrder(Step(s, i).journal) && Step(s, i).failure.Some?
  {
    StepSendsAtPosition(s, i);
    FailureStays(s, i);
    AppendNone(s.journal, Step(s, i).journal);
  }

  lemma RunNone(s: AgentState, inputs: seq<Input>)
    requires |inputs| == 0
    ensures Run(s, inputs) == s
  {
  }

  lemma RunSnoc(s: AgentState, inputs: seq<Input>, i: Input)
    ensures Run(s, inputs + [i]) == Step(Run(s, inputs), i)
  {
    hide Step;
    assert (inputs + [i])[..|inputs|] == inputs;
  }

  lemma StepAcksInOrder(s: AgentState, x: Origin, p: Place, i: Input)
    requires Tracks(s, x, p) && OriginValid(x) && Reliable(x) && Valid(x.log) && InputFits(i, x) && Calm(s, i, x)
    requires AcksInOrder(s.journal) && AcksUpTo(s.journal, s.core.logPosition)
    ensures var t := Step(s, i);
            AcksInOrder(t.journal) && (t.failure.None? ==> AcksUpTo(t.journal, t.core.logPosition))
  {
    hide Tracks, Step, InputFits, AcksInOrder, AcksUpTo, IsAckAt, Valid, OriginValid, Reliable, Calm;
    StepSendsAtPosition(s, i);
    AppendInOrder(s.journal, Step(s, i).journal, s.core.logPosition);
    var q := StepTracks(s, x, p, i);
    if Step(s, i).failure.None? {
      AcksUpToMore(Step(s, i).journal, s.core.logPosition, Step(s, i).core.logPosition);
    }
  }

  lemma AcksUpToMore(journal: seq<Note>, position: int, later: int)
    requires AcksUpTo(journal, position) && position <= later
    ensures AcksUpTo(journal, later)
  {
  }
}
