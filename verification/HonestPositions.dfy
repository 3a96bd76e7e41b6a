/** Events that carry their own log position: when replaying them leaves the position where each message
    ends, and a log over which a run skips a message. */
module HonestPositions {
  import opened Aeron
  import opened SessionTable
  import opened ReplicatedState
  import opened Reassembly
  import opened Publications
  import opened AgentSpec
  import opened LogViews

  lemma {:induction false} PrefixSucceeds(core: Core, log: seq<Entry>, n: nat)
    requires n <= |log| && Replay(core, log).failure.None?
    ensures Replay(core, log[..n]).failure.None?
    decreases |log|
  {
    hide Handle;
    if n < |log| {
      var init := log[..|log| - 1];
      assert init[..n] == log[..n];
      PrefixSucceeds(core, init, n);
    } else {
      assert log[..n] == log;
    }
  }

  /** After each event that is dispatched the log position is the end of its message, if and only if
      the events that carry a position of their own carry that one. */
  lemma PositionIsEndIffHonest(core: Core, log: seq<Entry>)
    requires Replay(core, log).failure.None?
    ensures (forall n | 0 <= n < |log| && Stamp(log[n]).Some? ::
               Replay(core, log[..n + 1]).core.logPosition == log[n].position)
            <==> (forall n | 0 <= n < |log| :: Honest(log[n]))
  {
    hide Replay, Stamp;
    forall n | 0 <= n < |log| && Stamp(log[n]).Some?
      ensures Replay(core, log[..n + 1]).core.logPosition == Stamp(log[n]).value
    {
      PrefixSucceeds(core, log, n + 1);
      assert LastStamp(log[..n + 1], n);
      ReplayEndsAtLastEvent(core, log[..n + 1], n);
    }
  }

  // ---- A position too far ahead ----

  /** Two messages of one frame each: a change of membership that claims the end of the second message,
      and the opening of a session. */
  const AHEAD := Frame(UNFRAGMENTED, 32, [0], 64)
  const OPENING := Frame(UNFRAGMENTED, 96, [1], 128)

  function DecodeTwo(payload: Bytes): Event
  {
    if payload == [0] then MembershipChangeEvent(128, 5, false, 9)
    else SessionOpenEvent(1, 7, 6, 1, "", [])
  }

  /** A duty cycle in which the consensus module asks to join the log at a position, and its image is there. */
  function Joining(nowNs: int, position: int, frames: seq<Frame>, available: nat): Cycle
  {
    Cycle(nowNs, false, false, false, JoinLog(position, 1000, 1, 0), 5, true, Some(Image(position, frames, 0)), [1], [],
          128, available, 1, false, false, SnapshotCycle(false, false, None, [], [], false, false, []))
  }

  /** A new agent before it joins anything. */
  ghost predicate IsWaiting(s: AgentState)
  {
    && s.config.decode == DecodeTwo && s.config.fragmentLimit > 0
    && s.core == Core(NO_SESSIONS, 0, 0, 1) && s.failure.None? && s.image.None? && s.activeLog.None? && s.snapshot.None?
    && s.role.FOLLOWER? && !s.isAbort && s.lastSlowTickNs == 0 && s.requestedAckPosition == NULL_POSITION
  }

  lemma OneGranted()
    ensures TryClaim([1]) == CLAIMED
  {
  }

  lemma WholeFrame(f: Frame)
    requires f.flags == UNFRAGMENTED
    ensures f.IsWhole()
  {
  }

  /** The tick joins the image, and its first frame is read if there is one. */
  lemma JoinsAndReads(s: AgentState, nowNs: int, position: int, frames: seq<Frame>, available: nat)
    requires s.failure.None? && s.snapshot.None? && s.role.FOLLOWER? && !s.isAbort && nowNs - s.lastSlowTickNs > TICK_NS
    requires s.core.logPosition == position && s.requestedAckPosition == NULL_POSITION && available <= |frames|
    ensures var t := DoWork(s, Joining(nowNs, position, frames, available));
            var joined := JoinedAt(s, nowNs, position, frames);
            t == PollLog(joined, Joining(nowNs, position, frames, available))
  {
    OneGranted();
    hide TryClaim, PollLog, Position;
  }

  ghost function JoinedAt(s: AgentState, nowNs: int, position: int, frames: seq<Frame>): AgentState
  {
    var ack := ServiceAck(s.core.logPosition, s.core.clusterTime, s.ackId, NULL_VALUE, s.config.serviceId);
    s.(lastSlowTickNs := nowNs, journal := s.journal + [AdapterPolled(nowNs)] + [Sent(ack)], ackId := s.ackId + 1,
       requestedAckPosition := NULL_POSITION, image := Some(Image(position, frames, 0)),
       maxLogPosition := 1000, memberId := 1,
       activeLog := None)
  }

  lemma ReadsAhead(s: AgentState)
    requires IsWaiting(s)
    ensures var t := DoWork(s, Joining(2_000_000, 0, [AHEAD, OPENING], 1));
            && t.failure.None? && t.snapshot.None? && t.role.FOLLOWER? && !t.isAbort && t.lastSlowTickNs == 2_000_000
            && t.requestedAckPosition == NULL_POSITION && t.core.table == NO_SESSIONS && t.core.logPosition == 128
            && t.config == s.config
  {
    var c := Joining(2_000_000, 0, [AHEAD, OPENING], 1);
    var joined := JoinedAt(s, 2_000_000, 0, [AHEAD, OPENING]);
    JoinsAndReads(s, 2_000_000, 0, [AHEAD, OPENING], 1);
    WholeFrame(AHEAD);
    var (next, action) := OnFragment(joined, AHEAD, true);
    assert next.core == Core(NO_SESSIONS, 128, 5, 1) && action == CONTINUE && next.failure.None?;
    hide DoWork, OnFragment;
    var moved := next.(image := Some(joined.image.value.(consumed := 1)));
    assert Poll(moved, 128, 1, joined.config.fragmentLimit - 1, 0) == (moved, 0);
    assert Poll(joined, 128, 1, joined.config.fragmentLimit, 1) == (moved, 1);
  }

  lemma ReadsNothing(s: AgentState)
    requires s.failure.None? && s.snapshot.None? && s.role.FOLLOWER? && !s.isAbort && s.lastSlowTickNs == 2_000_000
    requires s.core.logPosition == 128 && s.requestedAckPosition == NULL_POSITION
    ensures var t := DoWork(s, Joining(4_000_000, 128, [], 0));
            t.failure.None? && t.core == s.core && t.image == Some(Image(128, [], 0))
  {
    JoinsAndReads(s, 4_000_000, 128, [], 0);
    hide DoWork;
  }

  /** The agent reads the first message, believes its position, and joins the log again there: the
      second message is skipped, though nothing fails and the position is its end. */
  lemma AheadSkipsMessage(s: AgentState)
    requires IsWaiting(s)
    ensures var inputs := [Duty(Joining(2_000_000, 0, [AHEAD, OPENING], 1)), Duty(Joining(4_000_000, 128, [], 0))];
            var log := [Entry(DecodeTwo([0]), 64), Entry(DecodeTwo([1]), 128)];
            var t, whole := Run(s, inputs), Replay(s.core, log);
            && t.failure.None? && t.core.logPosition == 128 && t.core.table == NO_SESSIONS
            && whole.failure.None? && whole.core.logPosition == 128 && 7 in whole.core.table.byId
            && !Honest(log[0])
  {
    hide DoWork, Replay, Joining, Run;
    var first, second := Joining(2_000_000, 0, [AHEAD, OPENING], 1), Joining(4_000_000, 128, [], 0);
    ReplayTwo(s.core);
    ReadsAhead(s);
    ReadsNothing(DoWork(s, first));
    TwoCycles(s, first, second);
  }

  lemma TwoCycles(s: AgentState, first: Cycle, second: Cycle)
    ensures Run(s, [Duty(first), Duty(second)]) == DoWork(DoWork(s, first), second)
  {
    hide DoWork;
    assert [Duty(first), Duty(second)][..1] == [Duty(first)] && [Duty(first)][..0] == [];
    assert Run(s, [Duty(first)]) == Step(Run(s, []), Duty(first));
  }

  lemma ReplayTwo(core: Core)
    requires core.table == NO_SESSIONS
    ensures var whole := Replay(core, [Entry(DecodeTwo([0]), 64), Entry(DecodeTwo([1]), 128)]);
            whole.failure.None? && whole.core.logPosition == 128 && 7 in whole.core.table.byId
  {
    var e0, e1 := Entry(DecodeTwo([0]), 64), Entry(DecodeTwo([1]), 128);
    assert [e0, e1][..1] == [e0] && [e0][..0] == [];
    assert Replay(core, [e0]) == Then(Replay(core, []), e0);
    assert Replay(core, [e0, e1]) == Then(Replay(core, [e0]), e1);
  }
}
