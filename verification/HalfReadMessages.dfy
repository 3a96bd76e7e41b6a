/** A message that is lost, though the log is read to its end and nothing fails: it is read in part, the
    log is closed and joined again inside it, and that image is dropped half read for another. */
module HalfReadMessages {
  import opened Aeron
  import opened ReplicatedState
  import opened Reassembly
  import opened Publications
  import opened AgentSpec
  import opened LogViews
  import opened Tracking
  import opened Contiguity
  import opened ReadingRuns
  import opened JoinOrder

  lemma {:induction false} RunAppends(s: AgentState, xs: seq<Input>, ys: seq<Input>)
    ensures Run(s, xs + ys) == Run(Run(s, xs), ys)
    decreases |ys|
  {
    hide Step;
    if ys == [] {
      assert xs + ys == xs;
    } else {
      var init := ys[..|ys| - 1];
      assert (xs + ys)[..|xs + ys| - 1] == xs + init;
      RunAppends(s, xs, init);
    }
  }

  lemma RunsOneMore(s: AgentState, inputs: seq<Input>, c: Cycle)
    ensures Run(s, inputs + [Duty(c)]) == DoWork(Run(s, inputs), c)
  {
    hide DoWork;
    assert (inputs + [Duty(c)])[..|inputs|] == inputs;
  }

  lemma RunsNone(s: AgentState)
    ensures Run(s, []) == s
  {
  }

  lemma RunsFirst(s: AgentState, c: Cycle, rest: seq<Input>)
    ensures Run(s, [Duty(c)] + rest) == Run(DoWork(s, c), rest)
  {
    hide *;
    RunAppends(s, [Duty(c)], rest);
    RunsOneMore(s, [], c);
    assert [] + [Duty(c)] == [Duty(c)];
    RunsNone(s);
  }

  // ---- Closing ----

  /** The image has come to the end of its stream. */
  function Closing(s: AgentState): Cycle
  {
    Cycle(s.lastSlowTickNs, false, false, false, OtherAdapterMessage, 0, false, None, [], [], 0, 0, 0, true, false,
          Finishing(s))
  }

  ghost predicate ClosedNow(s: AgentState, t: AgentState)
    requires s.image.Some?
  {
    && Able(t) && t.image.None? && t.core == s.core.(logPosition := Max(Position(s.image.value), s.core.logPosition))
    && t.activeLog == s.activeLog && t.config == s.config && t.builder == s.builder
    && LogCallbacks(t.journal) == LogCallbacks(s.journal)
  }

  lemma ClosingPolls(s: AgentState, c: Cycle)
    requires Able(s) && s.image.Some? && c.available == 0 && c.endOfStream
    ensures PollLog(s, c) == CloseLog(s) && Able(CloseLog(s))
  {
    hide Position;
  }

  lemma CloseIsWork(s: AgentState)
    requires Able(s)
    ensures var ready := Unsnapshotted(s); DoWork(s, Closing(s)) == PollLog(ready, Closing(s))
  {
    UnsnapshottedDoes(s, Closing(s));
    hide Unsnapshotted, PollLog, Finishing, DoWork, LogCallbacks;
  }

  lemma Closes(s: AgentState)
    requires Able(s) && s.image.Some?
    ensures ClosedNow(s, DoWork(s, Closing(s)))
  {
    var ready := Unsnapshotted(s);
    UnsnapshottedDoes(s, Closing(s));
    CloseIsWork(s);
    ClosingPolls(ready, Closing(s));
    ClosedJournal(ready);
    hide DoWork, CloseLog, PollLog, Unsnapshotted, LogCallbacks, Position;
  }

  // ---- Frames that are not the next ----

  lemma Ignored(frames: seq<Frame>, b: Builder, k: nat)
    requires IsMessage(frames) && 1 <= k < |frames| && b.nextOffset != frames[k].offset
    ensures Offered(b, frames[k]).None? && After(b, frames[k], CONTINUE) == EMPTY
  {
    if k < |frames| - 1 {
      assert frames[..|frames| - 1][k] == frames[k];
    }
    hide Align;
    WholeIsBeginAndEnd(frames[k]);
  }

  lemma HeldIsBehind(frames: seq<Frame>)
    requires IsMessage(frames) && |frames| >= 3
    ensures Holding(frames[..2]).nextOffset != frames[1].offset
  {
    assert frames[..2][1] == frames[1];
  }

  /** The message has been taken up again inside, where the builder holds something else. */
  ghost predicate Lost(u: AgentState, log: Log, m: nat, k: nat, core: Core, callbacks: seq<Callback>)
    requires Valid(log) && m < |log.messages| && k <= |log.messages[m]|
  {
    && Able(u) && u.image.Some? && u.core == core && LogCallbacks(u.journal) == callbacks
    && (if k < |log.messages[m]| then
          InLog(log, Place(m, k)) && ReadTo(u, log, Place(m, k)) && u.builder.nextOffset != log.messages[m][k].offset
        else InLog(log, Place(m + 1, 0)) && ReadTo(u, log, Place(m + 1, 0)))
  }

  lemma MoreLeft(u: AgentState, log: Log, p: Place)
    requires Valid(log) && InLog(log, p) && p.message < |log.messages| && u.image.Some? && ReadTo(u, log, p)
    ensures u.image.value.consumed < |u.image.value.frames|
  {
    hide Valid;
    NextFrame(log, p);
    hide FramesFrom, PlaceAt;
    assert |u.image.value.frames[u.image.value.consumed..]| > 0;
  }

  lemma NothingHeld(u: AgentState, t: AgentState, log: Log, m: nat, k: nat)
    requires Valid(log) && m < |log.messages| && k < |log.messages[m]| && Able(u) && u.image.Some?
    requires InLog(log, Place(m, k)) && InLog(log, NextPlace(log, Place(m, k)))
    requires u.image.value.consumed < |u.image.value.frames|
    requires ReadTo(ReadOneMore(u), log, NextPlace(log, Place(m, k))) && t == ReadOneMore(u.(builder := EMPTY))
    ensures Lost(t, log, m, k + 1, u.core, LogCallbacks(u.journal))
  {
    hide Valid, FramesFrom, PlaceAt, LogCallbacks, Position;
  }

  lemma FrameIgnored(u: AgentState, log: Log, m: nat, k: nat)
    requires Valid(log) && m < |log.messages| && 1 <= k < |log.messages[m]| && Able(u) && u.image.Some?
    requires InLog(log, Place(m, k)) && ReadTo(u, log, Place(m, k))
    requires u.builder.nextOffset != log.messages[m][k].offset
    ensures u.image.value.consumed < |u.image.value.frames|
    ensures OnFragment(u, u.image.value.frames[u.image.value.consumed], true) == (u.(builder := EMPTY), CONTINUE)
    ensures Lost(ReadOneMore(u.(builder := EMPTY)), log, m, k + 1, u.core, LogCallbacks(u.journal))
  {
    MoreLeft(u, log, Place(m, k));
    NextFrameRead(u, log, Place(m, k));
    assert IsMessage(log.messages[m]);
    hide *;
    Ignored(log.messages[m], u.builder, k);
    BuilderOnly(u, u.image.value.frames[u.image.value.consumed], true);
    NothingHeld(u, ReadOneMore(u.(builder := EMPTY)), log, m, k);
  }

  lemma ReadsIgnored(u: AgentState, log: Log, m: nat, k: nat, core: Core, callbacks: seq<Callback>)
    requires Valid(log) && m < |log.messages| && 1 <= k < |log.messages[m]| && Lost(u, log, m, k, core, callbacks)
    ensures Lost(DoWork(u, Reading(u)), log, m, k + 1, core, callbacks)
  {
    UnsnapshottedDoes(u, Reading(u));
    ReadingPolls(u);
    var ready, c := Unsnapshotted(u), Reading(u);
    assert c.available == ready.image.value.consumed + 1 && Position(ready.image.value) < c.commitPosition;
    hide Valid, Unsnapshotted, DoWork, OnFragment, FramesFrom, PlaceAt, Position, LogCallbacks, Finishing, PollLog;
    FrameIgnored(ready, log, m, k);
    PollLogReadsOne(ready, c);
  }

  lemma LostReads(u: AgentState, x: Origin, m: nat, k: nat, core: Core, callbacks: seq<Callback>)
    requires Valid(x.log) && m < |x.log.messages| && k <= |x.log.messages[m]| && x.bound.None?
    requires Lost(u, x.log, m, k, core, callbacks)
    ensures u.image.Some? && InputFits(Duty(Reading(u)), x)
  {
    hide Valid, Reading;
    ReadingFits(u, x);
  }

  /** The rest of the message is read, and nothing comes of it. */
  lemma {:induction false} IgnoresRest(u: AgentState, x: Origin, m: nat, k: nat, core: Core, callbacks: seq<Callback>)
    returns (inputs: seq<Input>)
    requires Valid(x.log) && m < |x.log.messages| && 1 <= k <= |x.log.messages[m]| && x.bound.None?
    requires Lost(u, x.log, m, k, core, callbacks)
    ensures forall i | i in inputs :: InputFits(i, x)
    ensures Lost(Run(u, inputs), x.log, m, |x.log.messages[m]|, core, callbacks)
    decreases |x.log.messages[m]| - k
  {
    inputs := [];
    if k < |x.log.messages[m]| {
      hide *;
      LostReads(u, x, m, k, core, callbacks);
      ReadsIgnored(u, x.log, m, k, core, callbacks);
      var rest := IgnoresRest(DoWork(u, Reading(u)), x, m, k + 1, core, callbacks);
      inputs := [Duty(Reading(u))] + rest;
      RunsFirst(u, Reading(u), rest);
    }
  }

  // ---- The run that loses the message ----

  /** Where the run stands: it has applied the log to message `m` and read `k` frames of that, the log
      position being where the first of them ends. */
  ghost predicate HalfRead(u: AgentState, x: Origin, m: nat, k: nat)
    requires OriginValid(x) && m < |x.log.messages| && InLog(x.log, Place(m, k)) && InLog(x.log, Place(m, 1))
  {
    && Able(u) && u.image.Some? && Follows(u, x, Place(m, k))
    && u.core.logPosition == PlaceAt(x.log, Place(m, 1))
  }

  lemma ClosesInside(s: AgentState, x: Origin, m: nat, inputs: seq<Input>)
    requires OriginValid(x) && x.inside && x.bound.None? && AllHonest(x.log) && Starts(s, x) && Fits(s, inputs, x)
    requires m < |x.log.messages| && InLog(x.log, Place(m, 1)) && HasRead(Run(s, inputs), x, Place(m, 1))
    ensures var t := DoWork(Run(s, inputs), Closing(Run(s, inputs)));
            && Able(t) && t.image.None? && Follows(t, x, Place(m, 1))
            && t.core.logPosition == PlaceAt(x.log, Place(m, 1))
  {
    assert Valid(x.log) && Trusted(x) && s.failure.None?;
    var u, p := Run(s, inputs), Place(m, 1);
    assert Able(u) && u.failure.None? && u.image.Some? && Follows(u, x, p);
    var t := DoWork(u, Closing(u));
    ReadPosition(u, x, p);
    FollowsReads(u, x, p);
    TrackedIsRead(u, x, p);
    hide Tracks, Follows, Valid, OriginValid, Trusted, AllHonest, Starts, Fits, HasRead, Run, Closing, DoWork, PlaceAt;
    hide InLog, LeftFrom, LogCallbacks, IsView;
    StartTracks(s, x);
    var q := RunTracks(s, x, Place(x.from, 0), inputs);
    WhatIsTracked(u, x, q);
    TrackedIsRead(u, x, q);
    OnePlaceLeft(x.log, u.image.value, p, q);
    PlacedUpTo(u, x, p);
    Closes(u);
    ClosedFollows(u, t, x, p);
  }

  lemma JoinsInside(u: AgentState, x: Origin, m: nat)
    requires OriginValid(x) && m < |x.log.messages| && InLog(x.log, Place(m, 1)) && Able(u)
    requires Follows(u, x, Place(m, 1)) && u.core.logPosition == PlaceAt(x.log, Place(m, 1))
    ensures HalfRead(DoWork(u, Joining(u, ViewAt(x.log, Place(m, 1)))), x, m, 1)
  {
    var p := Place(m, 1);
    var image := ViewAt(x.log, p);
    WhatFollows(u, x, p);
    assert ViewFrom(x.log, image, p) && image.joinPosition == u.core.logPosition && image.consumed == 0;
    JoinsThere(u, image);
    hide Follows, Valid, OriginValid, DoWork, Joining, ViewAt, PlaceAt, ViewFrom, HasApplied, LogCallbacks, ReadTo;
    JoinedFollows(u, x, p, DoWork(u, Joining(u, image)), p);
  }

  lemma ReadsSecond(u: AgentState, x: Origin, m: nat)
    requires OriginValid(x) && m < |x.log.messages| && |x.log.messages[m]| >= 3
    requires InLog(x.log, Place(m, 1)) && InLog(x.log, Place(m, 2)) && HalfRead(u, x, m, 1)
    ensures HalfRead(DoWork(u, Reading(u)), x, m, 2)
  {
    hide Follows, Valid, DoWork, Reading, PlaceAt;
    assert NextPlace(x.log, Place(m, 1)) == Place(m, 2);
    ReadsOneFrame(u, x, Place(m, 1));
  }

  lemma JoinsAgain(u: AgentState, x: Origin, m: nat)
    requires OriginValid(x) && m < |x.log.messages| && |x.log.messages[m]| >= 3
    requires InLog(x.log, Place(m, 1)) && InLog(x.log, Place(m, 2)) && HalfRead(u, x, m, 2)
    ensures var t := DoWork(u, Joining(u, ViewAt(x.log, Place(m, 1))));
            Lost(t, x.log, m, 1, u.core, LogCallbacks(u.journal))
  {
    var image := ViewAt(x.log, Place(m, 1));
    assert image.joinPosition == u.core.logPosition && image.consumed == 0;
    assert u.builder == Holding(x.log.messages[m][..2]);
    assert IsMessage(x.log.messages[m]);
    HeldIsBehind(x.log.messages[m]);
    JoinsThere(u, image);
    hide Follows, Valid, DoWork, Joining, PlaceAt, FramesFrom, Holding, LogCallbacks;
    assert image.frames[0..] == image.frames;
  }

  lemma LostIsRead(t: AgentState, u: AgentState, x: Origin, m: nat)
    requires OriginValid(x) && x.from <= m < |x.log.messages| && HasApplied(u, x, m)
    requires Lost(t, x.log, m, |x.log.messages[m]|, u.core, LogCallbacks(u.journal))
    ensures t.failure.None? && t.image.Some? && WhollyRead(x.log, t.image.value, m + 1) && HasApplied(t, x, m)
  {
    hide Valid, FramesFrom, PlaceAt, Applied, LogCallbacks;
    assert LeftFrom(x.log, t.image.value, Place(m + 1, 0));
  }

  lemma HalfReadImage(u: AgentState, x: Origin, m: nat, k: nat)
    requires OriginValid(x) && m < |x.log.messages| && InLog(x.log, Place(m, k)) && InLog(x.log, Place(m, 1))
    requires HalfRead(u, x, m, k)
    ensures u.image.Some? && x.from <= m && HasApplied(u, x, m)
  {
    WhatFollows(u, x, Place(m, k));
  }

  lemma ClosingFits(u: AgentState, x: Origin)
    requires Valid(x.log) && x.bound.None?
    ensures InputFits(Duty(Closing(u)), x)
  {
    hide Valid, Finishing;
  }

  lemma FourCycles(u: AgentState, a: Cycle, b: Cycle, c: Cycle, d: Cycle)
    ensures Run(u, [Duty(a), Duty(b), Duty(c), Duty(d)]) == DoWork(DoWork(DoWork(DoWork(u, a), b), c), d)
  {
    hide DoWork, Run;
    RunsNone(u);
    RunsOneMore(u, [], a);
    RunsOneMore(u, [Duty(a)], b);
    RunsOneMore(u, [Duty(a), Duty(b)], c);
    RunsOneMore(u, [Duty(a), Duty(b), Duty(c)], d);
    assert [] + [Duty(a)] == [Duty(a)] && [Duty(a)] + [Duty(b)] == [Duty(a), Duty(b)];
    assert [Duty(a), Duty(b)] + [Duty(c)] == [Duty(a), Duty(b), Duty(c)];
    assert [Duty(a), Duty(b), Duty(c)] + [Duty(d)] == [Duty(a), Duty(b), Duty(c), Duty(d)];
  }

  lemma AllTogether(s: AgentState, x: Origin, first: seq<Input>, a: Cycle, b: Cycle, c: Cycle, d: Cycle,
                    rest: seq<Input>)
    returns (inputs: seq<Input>)
    requires Valid(x.log) && (forall i | i in first :: InputFits(i, x)) && (forall i | i in rest :: InputFits(i, x))
    requires InputFits(Duty(a), x) && InputFits(Duty(b), x) && InputFits(Duty(c), x) && InputFits(Duty(d), x)
    ensures forall i | i in inputs :: InputFits(i, x)
    ensures Run(s, inputs) == Run(DoWork(DoWork(DoWork(DoWork(Run(s, first), a), b), c), d), rest)
  {
    hide *;
    var four := [Duty(a), Duty(b), Duty(c), Duty(d)];
    FourCycles(Run(s, first), a, b, c, d);
    RunAppends(s, first, four);
    RunAppends(s, first + four, rest);
    inputs := first + four + rest;
  }

  /** In any honest log every message of three frames or more that can be applied is lost by some run whose
      images are all views of the log: its last frame has been read, nothing of it has been applied, and
      nothing failed. */
  lemma LosesHalfRead(s: AgentState, x: Origin, m: nat) returns (inputs: seq<Input>)
    requires OriginValid(x) && x.inside && x.bound.None? && AllHonest(x.log) && Starts(s, x) && Able(s)
    requires x.from <= m < |x.log.messages| && |x.log.messages[m]| >= 3 && Applied(x, m).failure.None?
    ensures forall i | i in inputs :: InputFits(i, x)
    ensures var t := Run(s, inputs);
            t.failure.None? && t.image.Some? && WhollyRead(x.log, t.image.value, m + 1) && HasApplied(t, x, m)
  {
    assert Valid(x.log) && InLog(x.log, Place(m, 1)) && InLog(x.log, Place(m, 2));
    var first := ReadsThere(s, x, Place(m, 1));
    var u1 := Run(s, first);
    assert u1.image.Some?;
    var view := ViewAt(x.log, Place(m, 1));
    assert forall i | i in first :: InputFits(i, x);
    hide *;
    ClosesInside(s, x, m, first);
    var u2 := DoWork(u1, Closing(u1));
    JoinsInside(u2, x, m);
    var u3 := DoWork(u2, Joining(u2, view));
    HalfReadImage(u3, x, m, 1);
    ReadsSecond(u3, x, m);
    var u4 := DoWork(u3, Reading(u3));
    HalfReadImage(u4, x, m, 2);
    JoinsAgain(u4, x, m);
    var u5 := DoWork(u4, Joining(u4, view));
    var rest := IgnoresRest(u5, x, m, 1, u4.core, LogCallbacks(u4.journal));
    LostIsRead(Run(u5, rest), u4, x, m);
    ClosingFits(u1, x);
    JoinSeesView(u2, x, Place(m, 1));
    ReadingFits(u3, x);
    JoinSeesView(u4, x, Place(m, 1));
    inputs := AllTogether(s, x, first, Closing(u1), Joining(u2, view), Reading(u3), Joining(u4, view), rest);
  }
}
