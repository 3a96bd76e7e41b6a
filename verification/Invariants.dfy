/** What every run of the agent keeps, whatever the world does to it, stated over the journal of
    its callbacks and requests. */
module Invariants {
  import opened Aeron
  import opened SessionTable
  import opened ReplicatedState
  import opened Reassembly
  import opened Publications
  import opened Snapshots
  import opened AgentSpec
  import opened Journals
  import opened AckNumbers

  // ---- The invariant ----

  ghost predicate SessionsShaped(s: AgentState)
  {
    forall id :: Shaped(s.journal, id) && (IsOpen(s.journal, id) <==> id in s.core.table.byId)
  }

  ghost predicate ClosedOnce(s: AgentState)
  {
    && s.closing <= s.core.table.byId.Keys
    && (forall id :: AtMostOnce(s.journal, id))
    && (forall id | id in s.core.table.byId :: CloseRequests(s.journal, id) == 1 <==> id in s.closing)
  }

  /** What is kept of the sessions, whatever the acks and the clock are. */
  ghost predicate Sound(s: AgentState)
  {
    Agrees(s.core.table) && SessionsShaped(s) && ClosedOnce(s)
  }

  ghost predicate Inv(s: AgentState)
  {
    Sound(s) && Numbered(s)
  }

  // ---- One more note ----

  /** A note that is about no session. */
  predicate IsAside(n: Note)
  {
    match n
    case Called(c) => !c.OnSessionOpen? && !c.OnSessionMessage? && !c.OnSessionClose?
    case Sent(r) => r.ServiceAck?
    case AdapterPolled(_) => true
    case _ => false
  }

  /** The parts of the state that say what sessions there are and which are closing. */
  predicate SameSubject(s: AgentState, t: AgentState)
  {
    s.core.table == t.core.table && s.closing == t.closing
  }

  lemma AsideKeeps(s: AgentState, t: AgentState, n: Note)
    requires Sound(s) && IsAside(n) && SameSubject(s, t) && t.journal == s.journal + [n]
    ensures Sound(t)
  {
    Snoc(s.journal, n);
    forall id ensures Shaped(t.journal, id) && AtMostOnce(t.journal, id) {
      AtMostOneNow(s.journal, id);
    }
  }

  // ---- Log events ----

  lemma OpenKeeps(s: AgentState, t: AgentState, session: Session, timestamp: int)
    requires Sound(s) && session.id !in s.core.table.byId
    requires t.core.table == Add(s.core.table, session)
             && t.journal == s.journal + [Called(OnSessionOpen(session, timestamp))]
    requires t.closing == s.closing
    ensures Sound(t)
  {
    hide Agrees, LowerBound, Put;
    Snoc(s.journal, Called(OnSessionOpen(session, timestamp)));
    AddAgreesIffNew(s.core.table, session);
  }

  lemma CloseEventKeeps(s: AgentState, t: AgentState, id: int, timestamp: int, reason: int)
    requires Sound(s) && id in s.core.table.byId
    requires t.core.table == Remove(s.core.table, id).0
    requires t.journal == s.journal + [Called(OnSessionClose(s.core.table.byId[id], timestamp, reason))]
    requires t.closing == s.closing - {id}
    ensures Sound(t)
  {
    hide Agrees;
    Snoc(s.journal, Called(OnSessionClose(s.core.table.byId[id], timestamp, reason)));
    RemoveTakesOne(s.core.table, id);
  }

  lemma MessageKeeps(s: AgentState, t: AgentState, session: Session, timestamp: int, body: Bytes)
    requires Sound(s) && session.id in s.core.table.byId
    requires SameSubject(s, t) && t.journal == s.journal + [Called(OnSessionMessage(session, timestamp, body))]
    ensures Sound(t)
  {
    Snoc(s.journal, Called(OnSessionMessage(session, timestamp, body)));
  }

  lemma SilentKeeps(s: AgentState, t: AgentState)
    requires Sound(s) && SameSubject(s, t) && t.journal == s.journal
    ensures Sound(t)
  {
  }

  lemma ApplyKeeps(s: AgentState, e: Event, position: int)
    requires Sound(s)
    ensures Sound(Apply(s, e, position))
  {
    var t := Apply(s, e, position);
    var o := Handle(s.core, e, position);
    if e.SessionOpenEvent? && o.failure.None? {
      assert CalledAll(o.callbacks) == [Called(o.callbacks[0])];
      OpenKeeps(s, t, OpenedSession(e), e.timestamp);
    } else if e.SessionCloseEvent? {
      RemoveTakesOne(s.core.table, e.clusterSessionId);
      if o.failure.None? {
        assert CalledAll(o.callbacks) == [Called(o.callbacks[0])];
        CloseEventKeeps(s, t, e.clusterSessionId, e.timestamp, e.closeReason);
      } else {
        assert t.journal == s.journal && t.closing == s.closing;
        SilentKeeps(s, t);
      }
    } else if |o.callbacks| == 0 {
      assert t.journal == s.journal;
      SilentKeeps(s, t);
    } else {
      assert CalledAll(o.callbacks) == [Called(o.callbacks[0])];
      if e.SessionMessage? {
        MessageKeeps(s, t, s.core.table.byId[e.clusterSessionId], e.timestamp, e.body);
      } else {
        AsideKeeps(s, t, Called(o.callbacks[0]));
      }
    }
  }

  lemma OnFragmentKeeps(s: AgentState, f: Frame, accepts: bool)
    requires Sound(s)
    ensures Sound(OnFragment(s, f, accepts).0)
  {
    var offered := Offered(s.builder, f);
    if offered.Some? && accepts {
      var e := s.config.decode(offered.value.payload);
      ApplyKeeps(s, e, offered.value.position);
      SilentKeeps(Apply(s, e, offered.value.position), OnFragment(s, f, accepts).0);
    } else {
      SilentKeeps(s, OnFragment(s, f, accepts).0);
    }
  }

  lemma {:induction false} PollKeeps(s: AgentState, limit: int, available: nat, fragments: nat, accepts: nat)
    requires Sound(s) && s.image.Some?
    ensures Sound(Poll(s, limit, available, fragments, accepts).0)
    decreases fragments
  {
    hide Sound;
    var image := s.image.value;
    if !(|| fragments == 0 || image.consumed >= available || image.consumed >= |image.frames|
         || Position(image) >= limit) {
      var f := image.frames[image.consumed];
      var (next, action) := OnFragment(s, f, accepts > 0);
      OnFragmentKeeps(s, f, accepts > 0);
      if action != ABORT && action != THROWN {
        var moved := next.(image := Some(image.(consumed := image.consumed + 1)));
        SilentKeeps(next, moved);
        PollKeeps(moved, limit, available, fragments - 1, if Offered(s.builder, f).Some? then accepts - 1 else accepts);
      }
    }
  }

  // ---- Acks, roles and closing ----

  lemma SendAckKeeps(s: AgentState, relevantId: int, results: seq<int>)
    requires Sound(s)
    ensures Sound(SendAck(s, relevantId, results).0)
  {
    var t := SendAck(s, relevantId, results).0;
    if TryClaim(results).CLAIMED? {
      var ack := ServiceAck(s.core.logPosition, s.core.clusterTime, s.ackId, relevantId, s.config.serviceId);
      AsideKeeps(s, t, Sent(ack));
    } else {
      SilentKeeps(s, t);
    }
  }

  lemma SetRoleKeeps(s: AgentState, role: Role)
    requires Sound(s)
    ensures Sound(SetRole(s, role))
  {
    if role != s.role {
      AsideKeeps(s, SetRole(s, role), Called(OnRoleChange(role)));
    }
  }

  lemma ClosingResetKeeps(s: AgentState)
    requires Sound(s)
    ensures Sound(s.(closing := {}, journal := s.journal + [ClosingReset]))
  {
    Snoc(s.journal, ClosingReset);
  }

  lemma CloseRequestKeeps(s: AgentState, t: AgentState, id: int)
    requires Sound(s) && id in s.core.table.byId && id !in s.closing
    requires t == s.(journal := s.journal + [Sent(CloseSession(id))], closing := s.closing + {id})
    ensures Sound(t)
  {
    Snoc(s.journal, Sent(CloseSession(id)));
  }

  lemma CloseClientSessionKeeps(s: AgentState, id: int, inLifecycleCallback: bool, results: seq<int>)
    requires Sound(s)
    ensures Sound(CloseClientSession(s, id, inLifecycleCallback, results).0)
  {
    hide Sound;
    var t := CloseClientSession(s, id, inLifecycleCallback, results).0;
    if t != s {
      CloseRequestKeeps(s, t, id);
    }
  }

  /** What the service is answered when it asks to close a session, by the journal: that its call is out of
      place, that no such session is open, the exception of the publication, that nothing was sent; and else,
      if and only if a committed request is on its way now, that the session is closing. */
  lemma CloseAnswered(s: AgentState, id: int, inLifecycleCallback: bool, results: seq<int>)
    requires Sound(s)
    ensures var (t, answer) := CloseClientSession(s, id, inLifecycleCallback, results);
            var asked := !inLifecycleCallback && IsOpen(s.journal, id);
            var unsent := asked && CloseRequests(s.journal, id) == 0;
            && (answer == INVALID_INVOCATION <==> inLifecycleCallback)
            && (answer == UNKNOWN_SESSION <==> !inLifecycleCallback && !IsOpen(s.journal, id))
            && (answer == NOT_SENT <==> unsent && TryClaim(results) == GAVE_UP)
            && (forall r :: answer == CLOSE_REFUSED(r) <==> unsent && TryClaim(results) == Claim.REFUSED(r))
            && (answer == CLOSING <==> asked && CloseRequests(t.journal, id) == 1)
            && t == s.(journal := t.journal, closing := t.closing)
            && t.journal ==
               s.journal + if unsent && TryClaim(results) == CLAIMED then [Sent(CloseSession(id))] else []
  {
    hide TryClaim;
    AtMostOneNow(s.journal, id);
    Snoc(s.journal, Sent(CloseSession(id)));
    assert s.journal + [] == s.journal;
    hide AtMostOnce, Shaped, IsOpen, CloseRequests;
  }

  lemma JoinKeeps(s: AgentState, c: Cycle)
    requires Sound(s) && s.activeLog.Some?
    ensures Sound(JoinActiveLog(s, c).0)
  {
    hide Sound;
    var a := ResolveJoin(s.activeLog.value, c);
    var (t, done) := JoinActiveLog(s, c);
    if Resolved(a) && a.image.value.joinPosition == s.core.logPosition && a.logPosition == s.core.logPosition {
      var joined := s.(image := a.image, maxLogPosition := a.maxLogPosition,
                       activeLog := Some(a.(subscribed := false)));
      SilentKeeps(s, joined);
      SendAckKeeps(joined, NULL_VALUE, c.joinClaims);
      var acked := SendAck(joined, NULL_VALUE, c.joinClaims).0;
      if acked.failure.None? {
        var member := acked.(memberId := a.memberId);
        SilentKeeps(acked, member);
        if a.role.LEADER? {
          ClosingResetKeeps(member);
          SetRoleKeeps(member.(closing := {}, journal := member.journal + [ClosingReset]), a.role);
        } else {
          SetRoleKeeps(member, a.role);
        }
      }
    } else {
      SilentKeeps(s, t);
    }
  }

  // ---- The duty cycle ----

  lemma AdapterKeeps(s: AgentState, c: Cycle)
    requires Sound(s.(journal := s.journal + [AdapterPolled(c.nowNs)]))
    ensures Sound(PollServiceAdapter(s, c))
  {
    hide Sound;
    var polled := s.(journal := s.journal + [AdapterPolled(c.nowNs)]);
    var told := OnAdapterMessage(polled, c.adapterMessage);
    SilentKeeps(polled, told);
    if told.failure.None? {
      if told.activeLog.Some? && told.image.None? {
        JoinKeeps(told, c);
        var (joining, joined) := JoinActiveLog(told, c);
        SilentKeeps(joining, joining.(activeLog := None));
        SendAckKeeps(joining, NULL_VALUE, c.requestClaims);
      } else {
        SendAckKeeps(told, NULL_VALUE, c.requestClaims);
      }
    }
  }

  lemma PollLogKeeps(s: AgentState, c: Cycle)
    requires Sound(s)
    ensures Sound(PollLog(s, c))
  {
    hide Sound;
    if s.image.Some? {
      var available := if c.imageClosed then 0 else c.available;
      PollKeeps(s, c.commitPosition, available, s.config.fragmentLimit, c.accepts);
      var (read, polled) := Poll(s, c.commitPosition, available, s.config.fragmentLimit, c.accepts);
      if read.failure.None? && polled == 0 && IsDone(read, c) {
        var closed := read.(core := read.core.(logPosition := Max(Position(read.image.value), read.core.logPosition)),
                            image := None);
        SilentKeeps(read, closed);
        SetRoleKeeps(closed, FOLLOWER);
      }
    }
  }

  lemma PollAllKeeps(s: AgentState, c: Cycle)
    requires Sound(s)
    ensures Sound(PollAll(s, c))
  {
    hide Sound;
    var (clock, ticked) := CheckForClockTick(s, c);
    SilentKeeps(s, clock);
    if ticked {
      AsideKeeps(s, clock.(journal := s.journal + [AdapterPolled(c.nowNs)]), AdapterPolled(c.nowNs));
      AdapterKeeps(clock, c);
      PollLogKeeps(PollServiceAdapter(clock, c), c);
    } else if clock.failure.None? {
      PollLogKeeps(clock, c);
    }
  }

  lemma SnapshotWorkKeeps(s: AgentState, c: SnapshotCycle)
    requires Sound(s) && s.snapshot.Some?
    ensures Sound(SnapshotWork(s, c).0)
  {
    hide Sound;
    var snapshot := s.snapshot.value.(published := true);
    var writing := if snapshot.recordingId.None? then WriteState(s, snapshot, c) else (snapshot, None);
    var written := s.(snapshot := Some(writing.0));
    SilentKeeps(s, written);
    if && (s.snapshot.value.published || c.publicationFound) && (snapshot.recordingId.Some? || c.recordingId.Some?)
       && !ArchiveThrows(s.snapshot.value, c) {
      SilentKeeps(s, written.(failure := writing.1));
      if writing.1.None? {
        CompleteKeeps(written, c);
      }
    } else {
      SilentKeeps(s, SnapshotWork(s, c).0);
    }
  }

  lemma CompleteKeeps(s: AgentState, c: SnapshotCycle)
    requires Sound(s) && s.snapshot.Some? && s.snapshot.value.recordingId.Some?
    ensures Sound(CompleteSnapshot(s, c).0)
  {
    hide Sound;
    var asked := AskService(s, c);
    if !s.snapshot.value.complete {
      AsideKeeps(s, asked, Called(OnTakeSnapshot));
    }
    SendAckKeeps(asked, asked.snapshot.value.recordingId.value, c.ackClaims);
  }

  lemma DoWorkKeeps(s: AgentState, c: Cycle)
    requires Sound(s)
    ensures Sound(DoWork(s, c))
  {
    hide Sound;
    if s.failure.None? {
      if s.snapshot.Some? {
        var worked := SnapshotWork(s, c.snapshot).0;
        SnapshotWorkKeeps(s, c.snapshot);
        SilentKeeps(worked, worked.(snapshot := None));
        PollAllKeeps(worked.(snapshot := None), c);
      } else {
        PollAllKeeps(s, c);
      }
    }
  }

  lemma {:induction false} RunKeepsSessions(s: AgentState, inputs: seq<Input>)
    requires Sound(s)
    ensures Sound(Run(s, inputs))
    decreases |inputs|
  {
    hide Sound;
    if |inputs| > 0 {
      var init, last := inputs[..|inputs| - 1], inputs[|inputs| - 1];
      RunKeepsSessions(s, init);
      match last
      case Duty(cycle) => DoWorkKeeps(Run(s, init), cycle);
      case Close(id, inLifecycleCallback, results) =>
        CloseClientSessionKeeps(Run(s, init), id, inLifecycleCallback, results);
    }
  }

  /** Every run keeps the invariant: the two representations of the sessions agree; ack ids count
      from zero without a gap; every session's callbacks have the shape (open, message*, close)*
      and it is in the table exactly while open; at most one close request per session between
      leader joins, the mark set exactly when it was sent; and adapter polls are a tick apart. */
  lemma RunKeeps(s: AgentState, inputs: seq<Input>)
    requires Inv(s)
    ensures Inv(Run(s, inputs))
  {
    hide Sound, Run, AcksCounted, TicksApart;
    RunKeepsSessions(s, inputs);
    RunNumbers(s, inputs);
  }

  /** A new agent, before anything was restored or sent, satisfies the invariant. */
  lemma FreshAgent(s: AgentState)
    requires s.journal == [] && s.ackId == 0 && s.closing == {} && s.core.table == NO_SESSIONS
    ensures Inv(s)
  {
  }

  // ---- What the invariant means, note by note ----

  ghost predicate OpenSince(journal: seq<Note>, id: int, b: nat)
  {
    b < |journal| && Begins(journal[b], id) && forall k | b < k < |journal| :: !Ends(journal[k], id)
  }

  lemma OpenSinceSnoc(journal: seq<Note>, n: Note, id: int, b: nat)
    ensures OpenSince(journal + [n], id, b) <==>
            if b == |journal| then Begins(n, id) else OpenSince(journal, id, b) && !Ends(n, id)
  {
    if b < |journal| && OpenSince(journal + [n], id, b) {
      assert (journal + [n])[|journal|] == n;
      assert forall k | b <= k < |journal| :: journal[k] == (journal + [n])[k];
    }
  }

  /** The session is open after some notes if and only if one of them begins it and none since ends it. */
  lemma {:induction false} OpenMeansBegun(journal: seq<Note>, id: int)
    ensures IsOpen(journal, id) <==> exists b: nat :: OpenSince(journal, id, b)
    decreases |journal|
  {
    if |journal| > 0 {
      var init, n := journal[..|journal| - 1], journal[|journal| - 1];
      assert journal == init + [n];
      OpenMeansBegun(init, id);
      forall b: nat
        ensures OpenSince(journal, id, b) <==>
                if b == |init| then Begins(n, id) else OpenSince(init, id, b) && !Ends(n, id)
      {
        OpenSinceSnoc(init, n, id, b);
      }
      hide OpenSince;
      assert Begins(n, id) ==> OpenSince(journal, id, |init|);
    }
  }

  /** The shape, note by note: a session begins only while not open, and is sent messages and ended
      only while open. */
  lemma {:induction false} ShapedMeans(journal: seq<Note>, id: int)
    ensures Shaped(journal, id) <==> forall i | 0 <= i < |journal| ::
                                       && (Begins(journal[i], id) ==> !IsOpen(journal[..i], id))
                                       && (IsMessageFor(journal[i], id) || Ends(journal[i], id) ==>
                                             IsOpen(journal[..i], id))
    decreases |journal|
  {
    if |journal| > 0 {
      var init := journal[..|journal| - 1];
      ShapedMeans(init, id);
      assert forall i | 0 <= i < |init| :: journal[..i] == init[..i] && journal[i] == init[i];
    }
  }

  lemma {:induction false} RequestIsCounted(journal: seq<Note>, id: int, i: nat)
    requires i < |journal| && journal[i] == Sent(CloseSession(id))
    requires forall k | i < k < |journal| :: !Begins(journal[k], id) && !journal[k].ClosingReset?
    ensures CloseRequests(journal, id) >= 1
    decreases |journal|
  {
    if i < |journal| - 1 {
      RequestIsCounted(journal[..|journal| - 1], id, i);
    }
  }

  lemma {:induction false} AtMostOnceInPrefix(journal: seq<Note>, id: int, n: nat)
    requires AtMostOnce(journal, id) && n <= |journal|
    ensures AtMostOnce(journal[..n], id)
    decreases |journal|
  {
    if n < |journal| {
      assert journal[..|journal| - 1][..n] == journal[..n];
      AtMostOnceInPrefix(journal[..|journal| - 1], id, n);
    } else {
      assert journal[..n] == journal;
    }
  }

  /** Between two committed requests to close one session, its object is made anew or the
      closing marks are reset. */
  lemma SeparatedInJournal(s: AgentState, id: int, i: nat, j: nat) returns (k: nat)
    requires Inv(s) && i < j < |s.journal|
    requires s.journal[i] == Sent(CloseSession(id)) && s.journal[j] == Sent(CloseSession(id))
    ensures i < k < j && (Begins(s.journal[k], id) || s.journal[k].ClosingReset?)
  {
    var upTo := s.journal[..j + 1];
    AtMostOnceInPrefix(s.journal, id, j + 1);
    AtMostOneNow(upTo, id);
    assert upTo[..|upTo| - 1] == s.journal[..j];
    assert CloseRequests(upTo, id) == CloseRequests(s.journal[..j], id) + 1;
    if forall x | i < x < j :: !Begins(s.journal[x], id) && !s.journal[x].ClosingReset? {
      RequestIsCounted(s.journal[..j], id, i);
      assert false;
    }
    k :| i < k < j && (Begins(s.journal[k], id) || s.journal[k].ClosingReset?);
  }

  /** `k` polls of the service adapter span at least `k - 1` times a tick and a nanosecond. */
  lemma {:induction false} TickRate(ticks: seq<int>, i: nat, j: nat)
    requires forall k | 1 <= k < |ticks| :: ticks[k] - ticks[k - 1] > TICK_NS
    requires i <= j < |ticks|
    ensures ticks[j] - ticks[i] >= (j - i) * (TICK_NS + 1)
    decreases j - i
  {
    if i < j {
      TickRate(ticks, i, j - 1);
    }
  }
}
