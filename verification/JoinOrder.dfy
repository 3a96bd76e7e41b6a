/** In what order a run joins images of a log, and what the log position says in the meantime: for both the
    exact condition on the log under which they are right in every run. */
module JoinOrder {
  import opened Aeron
  import opened SessionTable
  import opened ReplicatedState
  import opened Reassembly
  import opened Publications
  import opened AgentSpec
  import opened DutyCycles
  import opened LogViews
  import opened Tracking
  import opened Contiguity
  import opened ReadingRuns

  // ---- What a run joins, and what it has read ----

  /** The place to which the run has read the log: to where the last image seen was read. */
  ghost function ReadUpTo(s: AgentState, x: Origin, inputs: seq<Input>): (r: Place)
    requires OriginValid(x)
    ensures InLog(x.log, r)
    decreases |inputs|
  {
    if inputs == [] then
      PlaceStarts(x.log, x.from);
      Place(x.from, 0)
    else
      var t := Run(s, inputs);
      if t.image.Some? && exists p :: LeftFrom(x.log, t.image.value, p) then
        var p :| LeftFrom(x.log, t.image.value, p);
        p
      else ReadUpTo(s, x, inputs[..|inputs| - 1])
  }

  /** The image starts where reading has come to; or at the start of a message such that only undispatched
      ones lie between the two. */
  ghost predicate StartsInOrder(log: Log, image: Image, p: Place)
    requires Valid(log) && InLog(log, p)
  {
    exists q :: ViewFrom(log, image, q) && Near(log, q, p)
  }

  ghost predicate JoinsInOrderAt(s: AgentState, x: Origin, inputs: seq<Input>, n: nat)
    requires OriginValid(x) && n < |inputs|
  {
    var image := JoinedBy(Run(s, inputs[..n]), inputs[n]);
    image.Some? ==> StartsInOrder(x.log, image.value, ReadUpTo(s, x, inputs[..n]))
  }

  ghost predicate JoinsInOrder(s: AgentState, x: Origin, inputs: seq<Input>)
    requires OriginValid(x)
  {
    forall n | 0 <= n < |inputs| :: JoinsInOrderAt(s, x, inputs, n)
  }

  // ---- In a log that does not mislead every join is in order ----

  lemma NearFurther(log: Log, a: Place, b: Place, c: Place)
    requires Valid(log) && InLog(log, b) && InLog(log, c) && Near(log, a, b) && Near(log, b, c)
    ensures Near(log, a, c)
  {
    hide Valid, Silent;
    if a != b && b != c {
      SilentFurther(log, a.message, b.message, c.message);
    }
  }

  lemma NearInOrder(log: Log, image: Image, q: Place, p: Place)
    requires Valid(log) && InLog(log, p) && ViewFrom(log, image, q) && Near(log, q, p)
    ensures StartsInOrder(log, image, p)
  {
  }

  lemma AtAdapterTracks(s: AgentState, x: Origin, p: Place, i: Input)
    requires Tracks(s, x, p) && AtAdapter(s, i).Some?
    ensures Tracks(AtAdapter(s, i).value, x, p)
    ensures AtAdapter(s, i).value.core == s.core && AtAdapter(s, i).value.image == s.image
  {
    hide Tracks, SnapshotWork, LogCallbacks, CheckForClockTick;
    var c := i.cycle;
    var ready := s;
    if s.snapshot.Some? {
      SnapshotWorkSameTrack(s, c.snapshot);
      ready := SnapshotWork(s, c.snapshot).0.(snapshot := None);
    }
    SameTracks(s, ready, x, p);
    ClockSameTrack(ready, c);
    SameTracks(ready, CheckForClockTick(ready, c).0, x, p);
  }

  lemma CalmAtAdapter(s: AgentState, u: AgentState, x: Origin)
    requires Valid(x.log) && CalmDrop(s, x) && u.core == s.core && u.image == s.image
    ensures CalmDrop(u, x)
  {
  }

  lemma JoinedNear(s: AgentState, x: Origin, p: Place, i: Input)
    requires Tracks(s, x, p) && Valid(x.log) && InputFits(i, x) && Calm(s, i, x) && JoinedBy(s, i).Some?
    ensures InLog(x.log, p) && exists q :: ViewFrom(x.log, JoinedBy(s, i).value, q) && Near(x.log, q, p)
  {
    assert i.Duty?;
    hide Tracks, Valid, CalmDrop, AtAdapter, JoinActiveLog, Told, SeesViews, Near, ViewFrom;
    var u, c := AtAdapter(s, i).value, i.cycle;
    AtAdapterTracks(s, x, p, i);
    if x.inside && c.adapterMessage.JoinLog? {
      CalmAtAdapter(s, u, x);
    }
    ToldTracks(u, x, p, c);
    var q := JoiningTracks(Told(u, c), x, p, c);
  }

  lemma ReadFrom(s: AgentState, x: Origin, inputs: seq<Input>, q: Place)
    requires OriginValid(x) && |inputs| > 0 && Tracks(Run(s, inputs), x, q) && Run(s, inputs).image.Some?
    ensures ReadUpTo(s, x, inputs) == q
  {
    var t := Run(s, inputs);
    assert Valid(x.log);
    WhatIsTracked(t, x, q);
    hide Tracks, Follows, Run, LeftFrom, OriginValid, Valid;
    TrackedIsRead(t, x, q);
    OnlyReadThere(s, x, inputs, q);
  }

  lemma OnlyReadThere(s: AgentState, x: Origin, inputs: seq<Input>, q: Place)
    requires OriginValid(x) && |inputs| > 0 && Run(s, inputs).image.Some?
    requires LeftFrom(x.log, Run(s, inputs).image.value, q)
    ensures ReadUpTo(s, x, inputs) == q
  {
    hide Run, LeftFrom, Valid, BoundOnFrames, Boundary;
    OnePlaceLeft(x.log, Run(s, inputs).image.value, ReadUpTo(s, x, inputs), q);
  }

  lemma ReadBefore(s: AgentState, x: Origin, init: seq<Input>, last: Input)
    requires OriginValid(x) && Run(s, init + [last]).image.None?
    ensures ReadUpTo(s, x, init + [last]) == ReadUpTo(s, x, init)
  {
    hide Run;
    assert (init + [last])[..|init|] == init;
  }

  lemma InOrderSnoc(s: AgentState, x: Origin, init: seq<Input>, last: Input)
    requires OriginValid(x)
    ensures JoinsInOrder(s, x, init + [last]) <==>
            && JoinsInOrder(s, x, init)
            && (JoinedBy(Run(s, init), last).Some? ==>
                  StartsInOrder(x.log, JoinedBy(Run(s, init), last).value, ReadUpTo(s, x, init)))
  {
    assert Valid(x.log);
    hide Run, JoinedBy, ReadUpTo, StartsInOrder, OriginValid, Valid;
    var all := init + [last];
    assert all[|init|] == last && all[..|init|] == init;
    assert JoinsInOrderAt(s, x, all, |init|) <==>
           (JoinedBy(Run(s, init), last).Some? ==>
              StartsInOrder(x.log, JoinedBy(Run(s, init), last).value, ReadUpTo(s, x, init)));
    forall n | 0 <= n < |init| ensures JoinsInOrderAt(s, x, all, n) <==> JoinsInOrderAt(s, x, init, n) {
      assert all[n] == init[n] && all[..n] == init[..n];
    }
    hide JoinsInOrderAt;
  }

  /** A failed agent joins nothing. */
  lemma FailedJoinsNothing(s: AgentState, i: Input)
    requires s.failure.Some?
    ensures JoinedBy(s, i).None?
  {
  }

  lemma {:induction false} RunsInOrder(s: AgentState, x: Origin, inputs: seq<Input>) returns (q: Place)
    requires OriginValid(x) && Trusted(x) && Starts(s, x) && Fits(s, inputs, x)
    ensures Run(s, inputs).failure.None? ==>
              Tracks(Run(s, inputs), x, q) && InLog(x.log, q) && Near(x.log, q, ReadUpTo(s, x, inputs))
    ensures JoinsInOrder(s, x, inputs)
    decreases |inputs|
  {
    assert Valid(x.log);
    if inputs == [] {
      q := Place(x.from, 0);
      hide Tracks, Valid, Trusted;
      StartTracks(s, x);
      TracksLog(s, x, q);
    } else {
      var init, last := inputs[..|inputs| - 1], inputs[|inputs| - 1];
      assert inputs == init + [last] && Run(s, inputs) == Step(Run(s, init), last);
      hide *;
      FitsSnoc(s, init, last, x);
      q := RunsInOrder(s, x, init);
      InOrderSnoc(s, x, init, last);
      if Run(s, init).failure.None? {
        q := OneMoreInOrder(s, x, init, last, q);
      } else {
        FailedJoinsNothing(Run(s, init), last);
        FailureStays(Run(s, init), last);
      }
    }
  }

  lemma OneMoreInOrder(s: AgentState, x: Origin, init: seq<Input>, last: Input, p: Place) returns (q: Place)
    requires OriginValid(x) && Valid(x.log) && InputFits(last, x) && Calm(Run(s, init), last, x)
    requires Tracks(Run(s, init), x, p) && InLog(x.log, p) && Near(x.log, p, ReadUpTo(s, x, init))
    requires Run(s, init + [last]) == Step(Run(s, init), last)
    ensures JoinedBy(Run(s, init), last).Some? ==>
              StartsInOrder(x.log, JoinedBy(Run(s, init), last).value, ReadUpTo(s, x, init))
    ensures Run(s, init + [last]).failure.None? ==>
              && Tracks(Run(s, init + [last]), x, q) && InLog(x.log, q)
              && Near(x.log, q, ReadUpTo(s, x, init + [last]))
  {
    var u, t := Run(s, init), Run(s, init + [last]);
    hide Tracks, Valid, OriginValid, Near, ViewFrom, JoinedBy, StartsInOrder, Run, Step, Calm, InputFits, ReadUpTo;
    hide InLog;
    if JoinedBy(u, last).Some? {
      JoinedNear(u, x, p, last);
      var j :| ViewFrom(x.log, JoinedBy(u, last).value, j) && Near(x.log, j, p);
      NearFurther(x.log, j, p, ReadUpTo(s, x, init));
      NearInOrder(x.log, JoinedBy(u, last).value, j, ReadUpTo(s, x, init));
    }
    q := StepTracks(u, x, p, last);
    if t.failure.None? {
      TracksLog(t, x, q);
      if t.image.Some? {
        ReadFrom(s, x, init + [last], q);
        NearItself(x.log, q);
      } else {
        ReadBefore(s, x, init, last);
        NearFurther(x.log, q, p, ReadUpTo(s, x, init));
      }
    }
  }

  lemma NearItself(log: Log, p: Place)
    requires Valid(log) && InLog(log, p)
    ensures Near(log, p, p)
  {
  }

  /** In a log that does not mislead, every run over views of it joins every image in order. */
  lemma JoinsFollowReading(s: AgentState, x: Origin, inputs: seq<Input>)
    requires OriginValid(x) && Trusted(x) && Starts(s, x) && Fits(s, inputs, x)
    ensures JoinsInOrder(s, x, inputs)
  {
    hide *;
    var q := RunsInOrder(s, x, inputs);
  }

  // ---- Reading to any place there is ----

  ghost function ViewAt(log: Log, p: Place): Image
    requires Valid(log) && InLog(log, p)
  {
    Image(PlaceAt(log, p), FramesFrom(log, p), 0)
  }

  /** The place one frame before. */
  ghost function PlaceBefore(log: Log, p: Place): Place
    requires Valid(log) && InLog(log, p) && (p.frame > 0 || p.message > 0)
  {
    MessagesHaveFrames(log);
    if p.frame > 0 then Place(p.message, p.frame - 1) else Place(p.message - 1, |log.messages[p.message - 1]| - 1)
  }

  lemma BeforeIsBefore(log: Log, p: Place)
    requires Valid(log) && InLog(log, p) && (p.frame > 0 || p.message > 0)
    ensures var b := PlaceBefore(log, p);
            && InLog(log, b) && b.message < |log.messages| && NextPlace(log, b) == p && Before(b, p)
            && (b.frame + 1 == |log.messages[b.message]| <==> p.frame == 0)
            && b.message == (if p.frame > 0 then p.message else p.message - 1)
  {
    MessagesHaveFrames(log);
  }

  lemma AppliedUpTo(x: Origin, m: nat)
    requires OriginValid(x) && x.from < m <= |x.log.messages| && Applied(x, m).failure.None?
    ensures Applied(x, m - 1).failure.None?
  {
    hide Valid, BoundOnFrames, Boundary, MessageEntry;
    AppliedNext(x, m - 1);
  }

  /** The agent has read the log to `p` from a view of it, and what it applied last says the position. */
  ghost predicate HasRead(u: AgentState, x: Origin, p: Place)
    requires OriginValid(x) && InLog(x.log, p)
  {
    && Able(u) && u.image.Some? && Follows(u, x, p)
    && (p.frame == 0 && x.from < p.message && Stamp(MessageEntry(x.log, p.message - 1)).Some? ==>
          u.core.logPosition == Stamp(MessageEntry(x.log, p.message - 1)).value)
  }

  lemma JoinSeesView(u: AgentState, x: Origin, p: Place)
    requires Valid(x.log) && InLog(x.log, p) && (p.frame > 0 ==> x.inside) && x.bound.None?
    ensures InputFits(Duty(Joining(u, ViewAt(x.log, p))), x)
  {
    hide Valid, PlaceAt, FramesFrom, Finishing;
    assert ViewFrom(x.log, ViewAt(x.log, p), p);
  }

  lemma JoinIsCalm(u: AgentState, x: Origin, image: Image)
    requires Valid(x.log) && (x.inside ==> CalmDrop(u, x))
    ensures Calm(u, Duty(Joining(u, image)), x)
  {
    hide Valid, Finishing, AtAdapter, CalmDrop;
  }

  lemma ReadingFits(s: AgentState, x: Origin)
    requires Valid(x.log) && s.image.Some? && x.bound.None?
    ensures InputFits(Duty(Reading(s)), x) && Calm(s, Duty(Reading(s)), x)
  {
    hide Valid, Finishing, AtAdapter, CalmDrop;
  }

  lemma NoImageIsCalm(s: AgentState, x: Origin)
    requires Valid(x.log) && s.image.None?
    ensures CalmDrop(s, x)
  {
  }

  lemma FirstFits(s: AgentState, i: Input, x: Origin)
    requires Valid(x.log) && InputFits(i, x) && Calm(s, i, x)
    ensures Fits(s, [i], x) && Run(s, [i]) == Step(s, i)
  {
    hide Valid, InputFits, Calm, Step;
    assert [i][..0] == [] && Run(s, []) == s;
  }

  lemma FirstIsRead(s: AgentState, t: AgentState, x: Origin, image: Image)
    requires OriginValid(x) && Follows(s, x, Place(x.from, 0)) && Able(s) && InLog(x.log, Place(x.from, 0))
    requires image == ViewAt(x.log, Place(x.from, 0)) && JoinedNow(s, t, image)
    ensures HasRead(t, x, Place(x.from, 0))
  {
    WhatFollows(s, x, Place(x.from, 0));
    hide Follows, Valid, BoundOnFrames, FramesFrom, PlaceAt, HasApplied, LogCallbacks;
    assert ViewFrom(x.log, image, Place(x.from, 0));
    JoinedFollows(s, x, Place(x.from, 0), t, Place(x.from, 0));
  }

  lemma JoinsFirst(s: AgentState, x: Origin)
    requires OriginValid(x) && Starts(s, x) && Able(s) && x.bound.None?
    ensures InLog(x.log, Place(x.from, 0))
    ensures var i := Duty(Joining(s, ViewAt(x.log, Place(x.from, 0))));
            Fits(s, [i], x) && HasRead(Run(s, [i]), x, Place(x.from, 0))
  {
    var p := Place(x.from, 0);
    PlaceStarts(x.log, x.from);
    var image := ViewAt(x.log, p);
    assert Valid(x.log) && s.image.None? && image.joinPosition == s.core.logPosition && image.consumed == 0;
    assert p.frame == 0;
    hide *;
    StartFollows(s, x);
    NoImageIsCalm(s, x);
    JoinSeesView(s, x, p);
    JoinIsCalm(s, x, image);
    FirstFits(s, Duty(Joining(s, image)), x);
    JoinsThere(s, image);
    DutyIsWork(s, Joining(s, image));
    FirstIsRead(s, DoWork(s, Joining(s, image)), x, image);
  }

  lemma DutyIsWork(s: AgentState, c: Cycle)
    ensures Step(s, Duty(c)) == DoWork(s, c)
  {
  }

  lemma ReadsFurther(s: AgentState, u: AgentState, x: Origin, b: Place, p: Place)
    requires OriginValid(x) && InLog(x.log, b) && b.message < |x.log.messages| && NextPlace(x.log, b) == p
    requires HasRead(u, x, b) && Applied(x, p.message).failure.None? && InLog(x.log, p) && x.from <= b.message
    ensures HasRead(DoWork(u, Reading(u)), x, p)
  {
    hide Follows, Valid, Reading, DoWork, Able, MessageEntry, BoundOnFrames, Applied;
    ReadsOneFrame(u, x, b);
  }

  lemma OneFrameBefore(x: Origin, p: Place) returns (b: Place)
    requires OriginValid(x) && InLog(x.log, p) && x.from <= p.message && Applied(x, p.message).failure.None?
    requires p != Place(x.from, 0)
    ensures InLog(x.log, b) && x.from <= b.message < |x.log.messages| && NextPlace(x.log, b) == p
    ensures b.message < p.message || (b.message == p.message && b.frame < p.frame)
    ensures Applied(x, b.message).failure.None?
  {
    hide Valid, BoundOnFrames, Boundary, Applied, NextPlace, PlaceBefore;
    BeforeIsBefore(x.log, p);
    b := PlaceBefore(x.log, p);
    if b.message < p.message {
      AppliedUpTo(x, p.message);
    }
  }

  /** Any place of the log, as far as it can be applied, is read to by some run. */
  lemma {:induction false} ReadsThere(s: AgentState, x: Origin, p: Place) returns (inputs: seq<Input>)
    requires OriginValid(x) && Starts(s, x) && Able(s) && x.bound.None?
    requires InLog(x.log, p) && x.from <= p.message && Applied(x, p.message).failure.None?
    ensures |inputs| > 0 && Fits(s, inputs, x) && HasRead(Run(s, inputs), x, p)
    decreases p.message, p.frame
  {
    assert Valid(x.log);
    hide *;
    if p == Place(x.from, 0) {
      JoinsFirst(s, x);
      inputs := [Duty(Joining(s, ViewAt(x.log, p)))];
    } else {
      var b := OneFrameBefore(x, p);
      var init := ReadsThere(s, x, b);
      inputs := ReadsOn(s, x, init, b, p);
    }
  }

  lemma ReadsOn(s: AgentState, x: Origin, init: seq<Input>, b: Place, p: Place) returns (inputs: seq<Input>)
    requires OriginValid(x) && x.bound.None? && InLog(x.log, b) && Fits(s, init, x) && HasRead(Run(s, init), x, b)
    requires b.message < |x.log.messages| && NextPlace(x.log, b) == p && InLog(x.log, p) && x.from <= b.message
    requires Applied(x, p.message).failure.None?
    ensures |inputs| > 0 && Fits(s, inputs, x) && HasRead(Run(s, inputs), x, p)
  {
    assert Valid(x.log);
    var u := Run(s, init);
    assert u.image.Some?;
    inputs := init + [Duty(Reading(u))];
    assert inputs[..|inputs| - 1] == init;
    assert Run(s, inputs) == DoWork(u, Reading(u));
    hide *;
    ReadsFurther(s, u, x, b, p);
    ReadingFits(u, x);
    FitsSnoc(s, init, Duty(Reading(u)), x);
  }

  // ---- A message that misleads breaks the order ----

  lemma MisleadingNeverFails(x: Origin, i: nat, b: nat)
    requires OriginValid(x) && x.from <= i < |x.log.messages| && MisleadsTo(x.log, i, b)
    requires Applied(x, i).failure.None?
    ensures Applied(x, i + 1).failure.None? && b != i + 1
  {
    AppliedNext(x, i);
    EntryEnds(x.log, i);
    PlaceStarts(x.log, i + 1);
    PlaceStarts(x.log, b);
    hide Valid, BoundOnFrames, Boundary, MessageEntry, Applied, PlaceAt;
    if Boundary(x.log, b) == Boundary(x.log, i + 1) {
      SamePlace(x.log, Place(b, 0), Place(i + 1, 0));
      assert false;
    }
  }

  lemma StartsNowhereElse(log: Log, p: Place, q: Place)
    requires Valid(log) && InLog(log, p) && InLog(log, q) && StartsInOrder(log, ViewAt(log, q), p)
    ensures Near(log, q, p)
  {
    hide Valid, PlaceAt, FramesFrom, Silent;
    var r :| ViewFrom(log, ViewAt(log, q), r) && Near(log, r, p);
    SamePlace(log, q, r);
  }

  /** At any place but those near where the agent has read to, if its log position is there, an image can
      be joined out of order. */
  lemma JoinsOutOfOrder(s: AgentState, x: Origin, inputs: seq<Input>, p: Place, q: Place)
    requires OriginValid(x) && |inputs| > 0 && InLog(x.log, p) && InLog(x.log, q)
    requires Able(Run(s, inputs)) && Run(s, inputs).image.Some? && Follows(Run(s, inputs), x, p)
    requires Run(s, inputs).core.logPosition == PlaceAt(x.log, q) && !Near(x.log, q, p)
    ensures !JoinsInOrder(s, x, inputs + [Duty(Joining(Run(s, inputs), ViewAt(x.log, q)))])
  {
    assert Valid(x.log);
    var u, image := Run(s, inputs), ViewAt(x.log, q);
    assert image.joinPosition == u.core.logPosition && image.consumed == 0;
    JoinsThere(u, image);
    assert JoinedBy(u, Duty(Joining(u, image))) == Some(image);
    TrackedIsRead(u, x, p);
    hide *;
    OnlyReadThere(s, x, inputs, p);
    InOrderSnoc(s, x, inputs, Duty(Joining(u, image)));
    OutOfOrder(x.log, p, q);
  }

  lemma OutOfOrder(log: Log, p: Place, q: Place)
    requires Valid(log) && InLog(log, p) && InLog(log, q) && !Near(log, q, p)
    ensures !StartsInOrder(log, ViewAt(log, q), p)
  {
    hide *;
    if StartsInOrder(log, ViewAt(log, q), p) {
      StartsNowhereElse(log, p, q);
    }
  }

  /** A run that reads to just behind a dispatched message, and has the position it carries. */
  lemma ReadsBehind(s: AgentState, x: Origin, i: nat) returns (inputs: seq<Input>, u: AgentState)
    requires OriginValid(x) && Starts(s, x) && Able(s) && x.bound.None?
    requires x.from <= i < |x.log.messages| && InLog(x.log, Place(i + 1, 0)) && Applied(x, i + 1).failure.None?
    requires Stamp(MessageEntry(x.log, i)).Some?
    ensures |inputs| > 0 && Fits(s, inputs, x) && u == Run(s, inputs)
    ensures Able(u) && u.image.Some? && Follows(u, x, Place(i + 1, 0)) && HasRead(u, x, Place(i + 1, 0))
    ensures u.core.logPosition == Stamp(MessageEntry(x.log, i)).value
  {
    hide Valid, OriginValid, Starts, Fits, Run, Applied, InLog, Follows, MessageEntry;
    inputs := ReadsThere(s, x, Place(i + 1, 0));
    u := Run(s, inputs);
  }

  lemma MisleadingBreaksOrder(s: AgentState, x: Origin, i: nat, b: nat) returns (inputs: seq<Input>)
    requires OriginValid(x) && Starts(s, x) && Able(s) && x.bound.None? && !x.inside
    requires x.from <= i < |x.log.messages| && Applied(x, i).failure.None? && MisleadsTo(x.log, i, b)
    ensures Fits(s, inputs, x) && !JoinsInOrder(s, x, inputs)
  {
    assert Valid(x.log);
    MisleadingNeverFails(x, i, b);
    PlaceStarts(x.log, i + 1);
    PlaceStarts(x.log, b);
    var p, q := Place(i + 1, 0), Place(b, 0);
    assert !Near(x.log, q, p);
    assert Stamp(MessageEntry(x.log, i)) == Some(PlaceAt(x.log, q));
    var init, u := ReadsBehind(s, x, i);
    inputs := init + [Duty(Joining(u, ViewAt(x.log, q)))];
    assert !x.inside;
    hide *;
    JoinsOutOfOrder(s, x, init, p, q);
    JoinSeesView(u, x, q);
    JoinIsCalm(u, x, ViewAt(x.log, q));
    FitsSnoc(s, init, Duty(Joining(u, ViewAt(x.log, q))), x);
  }

  /** For every agent at any point of a log: in every run over views of the log, whatever the order of
      joins, polls, aborts, snapshots and closes, each image is joined where reading has come to, up to
      undispatched messages, if and only if no message that can be applied takes the log position to a
      boundary with dispatched messages between it and the message's own end. */
  lemma JoinsInOrderIffLeading(s: AgentState, x: Origin)
    requires OriginValid(x) && Starts(s, x) && Able(s) && x.bound.None? && !x.inside
    ensures (forall inputs: seq<Input> | Fits(s, inputs, x) :: JoinsInOrder(s, x, inputs)) <==> Leading(x)
  {
    if Leading(x) {
      assert Trusted(x);
      forall inputs: seq<Input> | Fits(s, inputs, x) ensures JoinsInOrder(s, x, inputs) {
        JoinsFollowReading(s, x, inputs);
      }
    } else {
      var i :| x.from <= i < |x.log.messages| && Applied(x, i).failure.None? && Misleads(x.log, i);
      var b: nat :| MisleadsTo(x.log, i, b);
      hide *;
      var inputs := MisleadingBreaksOrder(s, x, i, b);
    }
  }

  // ---- What the log position says ----

  lemma UntellingNeverFails(x: Origin, i: nat)
    requires OriginValid(x) && x.from <= i < |x.log.messages| && Applied(x, i).failure.None? && !Tells(x.log, i)
    ensures Applied(x, i + 1).failure.None?
  {
    AppliedNext(x, i);
    if Honest(MessageEntry(x.log, i)) {
      HonestTells(x.log, i);
    }
    hide Valid, BoundOnFrames, Boundary, MessageEntry, Applied, Tells;
  }

  lemma StampTells(u: AgentState, x: Origin, i: nat, m: nat)
    requires OriginValid(x) && m == i + 1 <= |x.log.messages| && PositionTells(u, x, m)
    requires Stamp(MessageEntry(x.log, i)) == Some(u.core.logPosition)
    ensures Tells(x.log, i)
  {
    hide Valid, BoundOnFrames, Boundary, EndsBelow, MessageEntry;
    var n: nat :| TellsAt(u, x, n, m);
    assert TellsTo(x.log, i, n);
  }

  /** Behind a message that does not tell, the log position does not say what has been read. */
  lemma UntellingBreaksPosition(s: AgentState, x: Origin, i: nat) returns (inputs: seq<Input>)
    requires OriginValid(x) && Starts(s, x) && Able(s) && x.bound.None?
    requires x.from <= i < |x.log.messages| && Applied(x, i).failure.None? && !Tells(x.log, i)
    ensures Fits(s, inputs, x) && Run(s, inputs).failure.None?
    ensures !PositionTells(Run(s, inputs), x, ReadUpTo(s, x, inputs).message)
  {
    UntellingNeverFails(x, i);
    PlaceStarts(x.log, i + 1);
    assert Stamp(MessageEntry(x.log, i)).Some?;
    var u;
    inputs, u := ReadsBehind(s, x, i);
    hide Valid, OriginValid, Starts, Fits, Run, Applied, Follows, MessageEntry, HasRead, EndsBelow, LeftFrom, ReadUpTo;
    TrackedIsRead(u, x, Place(i + 1, 0));
    OnlyReadThere(s, x, inputs, Place(i + 1, 0));
    if PositionTells(u, x, i + 1) {
      StampTells(u, x, i, i + 1);
    }
  }

  lemma PositionTellsRead(s: AgentState, x: Origin, inputs: seq<Input>)
    requires OriginValid(x) && Trusted(x) && Reliable(x) && Starts(s, x) && Fits(s, inputs, x)
    requires Run(s, inputs).failure.None?
    ensures PositionTells(Run(s, inputs), x, ReadUpTo(s, x, inputs).message)
  {
    var t, r := Run(s, inputs), ReadUpTo(s, x, inputs);
    hide Valid, OriginValid, Trusted, Reliable, Starts, Fits, Run, Tracks, EndsBelow, ReadUpTo, Placed, Follows, Silent;
    hide InLog;
    var q := RunsInOrder(s, x, inputs);
    WhatIsTracked(t, x, q);
    PlacedTells(t, x, q);
    var n: nat :| TellsAt(t, x, n, q.message);
    NearIsSilent(x.log, q, r);
    SilentFurther(x.log, n, q.message, r.message);
    assert TellsAt(t, x, n, r.message);
  }

  lemma NearIsSilent(log: Log, q: Place, p: Place)
    requires Valid(log) && InLog(log, q) && InLog(log, p) && Near(log, q, p)
    ensures Silent(log, q.message, p.message)
  {
    hide Valid, MessageEntry;
  }

  /** For every agent at any point of a log: at every moment of every run over views of the log the messages
      that end at or below the log position are those whose last frame has been read, up to undispatched
      ones, if and only if every message that can be applied carries a position at the start of, or inside,
      the message that follows it, up to undispatched ones. */
  lemma PositionTellsIffTelling(s: AgentState, x: Origin)
    requires OriginValid(x) && Starts(s, x) && Able(s) && x.bound.None? && !x.inside && x.told
    ensures (forall inputs: seq<Input> | Fits(s, inputs, x) && Run(s, inputs).failure.None? ::
               PositionTells(Run(s, inputs), x, ReadUpTo(s, x, inputs).message)) <==> Telling(x)
  {
    if Telling(x) {
      TellingIsLeading(x);
      assert Trusted(x) && Reliable(x);
      forall inputs: seq<Input> | Fits(s, inputs, x) && Run(s, inputs).failure.None?
        ensures PositionTells(Run(s, inputs), x, ReadUpTo(s, x, inputs).message)
      {
        PositionTellsRead(s, x, inputs);
      }
    } else {
      var i :| x.from <= i < |x.log.messages| && Applied(x, i).failure.None? && !Tells(x.log, i);
      hide *;
      var inputs := UntellingBreaksPosition(s, x, i);
    }
  }

  // ---- Images joined inside a message ----

  /** An image dropped for a join while the log position is still inside the message where that image was
      joined, and more has been read of it since, can be followed by one joined out of order. */
  lemma CalmIsNeeded(s: AgentState, x: Origin, inputs: seq<Input>) returns (more: Input)
    requires OriginValid(x) && x.inside && x.bound.None? && AllHonest(x.log) && Starts(s, x)
    requires |inputs| > 0 && Fits(s, inputs, x)
    requires Able(Run(s, inputs)) && Run(s, inputs).image.Some? && !CalmDrop(Run(s, inputs), x)
    ensures InputFits(more, x) && !JoinsInOrder(s, x, inputs + [more])
  {
    assert Valid(x.log) && Trusted(x) && s.failure.None?;
    var u := Run(s, inputs);
    assert u.failure.None? && Position(u.image.value) != u.core.logPosition;
    assert !OnBoundary(x.log, u.core.logPosition);
    hide *;
    StartTracks(s, x);
    var p := RunTracks(s, x, Place(x.from, 0), inputs);
    WhatIsTracked(u, x, p);
    ReadPosition(u, x, p);
    var q := OutOfReach(u, x, p);
    more := Duty(Joining(u, ViewAt(x.log, q)));
    JoinsOutOfOrder(s, x, inputs, p, q);
    JoinSeesView(u, x, q);
  }

  lemma OutOfReach(u: AgentState, x: Origin, p: Place) returns (q: Place)
    requires OriginValid(x) && AllHonest(x.log) && InLog(x.log, p) && Placed(u, x, p)
    requires PlaceAt(x.log, p) != u.core.logPosition && !OnBoundary(x.log, u.core.logPosition)
    ensures InLog(x.log, q) && PlaceAt(x.log, q) == u.core.logPosition && !Near(x.log, q, p)
  {
    hide Valid, AllHonest, BoundOnFrames, Silent, Boundary, PlaceAt;
    q :| PositionedAt(u, x, q, p);
    if q.frame == 0 {
      PlaceStarts(x.log, q.message);
      assert false;
    }
  }

  lemma CalmFits(s: AgentState, x: Origin, inputs: seq<Input>, more: Input)
    requires Valid(x.log) && Fits(s, inputs, x) && InputFits(more, x) && CalmDrop(Run(s, inputs), x)
    ensures Fits(s, inputs + [more], x)
  {
    hide Fits, Valid, InputFits, CalmDrop, Run;
    FitsSnoc(s, inputs, more, x);
  }

  /** Wherever a run over an honest log has come to, through images that may be joined inside a message: the
      next join is in order, whatever comes next, if and only if the log position is a message boundary, or
      is where the image has been read to. */
  lemma NextJoinInOrderIffCalm(s: AgentState, x: Origin, inputs: seq<Input>)
    requires OriginValid(x) && x.inside && x.bound.None? && AllHonest(x.log) && Starts(s, x)
    requires Fits(s, inputs, x) && Able(Run(s, inputs))
    ensures (forall more: Input | InputFits(more, x) :: JoinsInOrder(s, x, inputs + [more])) <==>
            CalmDrop(Run(s, inputs), x)
  {
    assert Valid(x.log) && Trusted(x);
    if inputs == [] {
      assert Run(s, inputs) == s;
    }
    if CalmDrop(Run(s, inputs), x) {
      hide *;
      forall more: Input | InputFits(more, x) ensures JoinsInOrder(s, x, inputs + [more]) {
        CalmFits(s, x, inputs, more);
        JoinsFollowReading(s, x, inputs + [more]);
      }
    } else {
      assert Run(s, inputs).image.Some? && |inputs| > 0;
      hide *;
      var more := CalmIsNeeded(s, x, inputs);
    }
  }
}
