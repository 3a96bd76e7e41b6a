/** The state machine's steps cut into the smaller ones that the objects of the container take. */
module AgentSteps {
  import opened Aeron
  import opened SessionTable
  import opened ReplicatedState
  import opened Reassembly
  import opened Snapshots
  import opened AgentSpec

  ghost function Moved(s: AgentState, position: int, timestamp: int): AgentState
  {
    s.(core := s.core.(logPosition := position, clusterTime := timestamp))
  }

  ghost function Noted(s: AgentState, n: Note): AgentState { s.(journal := s.journal + [n]) }

  ghost function Without(s: AgentState, table: Table, id: int): AgentState
  {
    s.(core := s.core.(table := table), closing := s.closing - {id})
  }

  ghost function WithTable(s: AgentState, table: Table, told: Note): AgentState
  {
    s.(core := s.core.(table := table), journal := s.journal + [told])
  }

  /** A new session as the state machine takes it in. */
  ghost function Opened(s: AgentState, session: Session, timestamp: int, position: int): AgentState
  {
    var moved := Moved(s, position, timestamp).(failure := None);
    if session.id in s.core.table.byId then moved.(failure := Some(ClashingOpen(session.id)))
    else WithTable(moved, Add(s.core.table, session), Called(OnSessionOpen(session, timestamp)))
  }

  lemma ApplyOpen(s: AgentState, e: Event, position: int)
    requires e.SessionOpenEvent?
    ensures Apply(s, e, position) == Opened(s, OpenedSession(e), e.timestamp, position)
  {
    hide Add;
    var callbacks := Handle(s.core, e, position).callbacks;
    if e.clusterSessionId !in s.core.table.byId {
      assert CalledAll(callbacks) == [Called(callbacks[0])];
    } else {
      assert s.journal + CalledAll(callbacks) == s.journal;
    }
  }

  lemma ApplyMessage(s: AgentState, id: int, timestamp: int, body: Bytes, position: int)
    requires s.failure.None?
    ensures Apply(s, SessionMessage(id, timestamp, body), position) ==
            if id in s.core.table.byId
            then Noted(Moved(s, position, timestamp), Called(OnSessionMessage(s.core.table.byId[id], timestamp, body)))
            else Moved(s, position, timestamp)
  {
    var callbacks := Handle(s.core, SessionMessage(id, timestamp, body), position).callbacks;
    if id in s.core.table.byId {
      assert CalledAll(callbacks) == [Called(callbacks[0])];
    } else {
      assert s.journal + CalledAll(callbacks) == s.journal;
    }
  }

  lemma ApplyClose(s: AgentState, termId: int, id: int, timestamp: int, reason: int, position: int)
    ensures var (rest, removed) := Remove(s.core.table, id);
            var moved := s.(core := s.core.(logPosition := position, clusterTime := timestamp, table := rest),
                         closing := s.closing - {id});
            Apply(s, SessionCloseEvent(termId, id, timestamp, reason), position) ==
            match removed
            case None => moved.(failure := Some(UnknownClose(id)))
            case Some(session) => moved.(journal := s.journal + [Called(OnSessionClose(session, timestamp, reason))],
                                         failure := None)
  {
    hide Remove;
    var callbacks := Handle(s.core, SessionCloseEvent(termId, id, timestamp, reason), position).callbacks;
    if Remove(s.core.table, id).1.Some? {
      assert CalledAll(callbacks) == [Called(callbacks[0])];
    } else {
      assert s.journal + CalledAll(callbacks) == s.journal;
    }
  }

  lemma ApplyAction(s: AgentState, termId: int, logPosition: int, timestamp: int, action: ClusterAction)
    ensures forall position ::
              Apply(s, ClusterActionRequest(termId, logPosition, timestamp, action), position) ==
              s.(core := s.core.(logPosition := logPosition, clusterTime := timestamp), failure := None,
              snapshot := if action.SNAPSHOT? then Some(NEW_SNAPSHOT) else s.snapshot)
  {
    assert s.journal + CalledAll([]) == s.journal;
  }

  /** An event that carries its own log position is not applied at that of its frame. */
  lemma ApplyAtOwnPosition(s: AgentState, e: Event, position: int)
    requires e.ClusterActionRequest? || e.NewLeadershipTermEvent? || e.MembershipChangeEvent?
    ensures Apply(s, e, position) == Apply(s, e, e.logPosition)
  {
  }

  lemma ApplyUndispatched(s: AgentState, e: Event, position: int)
    requires (e.OtherTemplate? || e.OtherSchema?) && s.failure.None?
    ensures Apply(s, e, position) == s.(failure := if e.OtherSchema? then Some(UnexpectedSchema) else None)
  {
    assert s.journal + CalledAll([]) == s.journal;
  }

  lemma ApplyKeepsBuilder(s: AgentState, e: Event, position: int, builder: Builder)
    ensures Apply(s.(builder := builder), e, position) == Apply(s, e, position).(builder := builder)
    ensures Apply(s, e, position).builder == s.builder
  {
    hide Handle;
  }

  lemma LastFragment(s: AgentState, f: Frame, accepts: bool)
    requires !f.IsWhole() && !f.Begins() && f.Ends() && f.offset == s.builder.nextOffset && s.failure.None?
    ensures AgentSpec.OnFragment(s, f, accepts) ==
            if !accepts then (s, ABORT)
            else
              var message := s.builder.bytes + f.payload;
              var applied := Apply(s, s.config.decode(message), f.position);
              if applied.failure.Some? then (applied.(builder := Builder(message, s.builder.nextOffset)), THROWN)
              else (applied.(builder := EMPTY), CONTINUE)
  {
    hide Apply;
  }

  lemma OtherFragment(s: AgentState, f: Frame, accepts: bool)
    requires s.failure.None?
    ensures f.IsWhole() ==>
              AgentSpec.OnFragment(s, f, accepts) ==
              if !accepts then (s, ABORT)
              else
                var applied := Apply(s, s.config.decode(f.payload), f.position);
                (applied, if applied.failure.Some? then THROWN else CONTINUE)
    ensures !f.IsWhole() && !(!f.Begins() && f.Ends() && f.offset == s.builder.nextOffset) ==>
              AgentSpec.OnFragment(s, f, accepts) == (s.(builder := After(s.builder, f, CONTINUE)), CONTINUE)
  {
    if f.IsWhole() {
      ApplyKeepsBuilder(s, s.config.decode(f.payload), f.position, s.builder);
    }
    hide Apply;
  }

  /** Polling from `now` with what is left comes to the same as the whole poll. */
  ghost predicate PollsTo(before: AgentState, now: AgentState, limit: int, available: nat, fragments: nat, accepts: nat,
                          polled: nat, left: nat)
    requires before.image.Some? && now.image.Some? && polled <= fragments
  {
    var rest := AgentSpec.Poll(now, limit, available, fragments - polled, left);
    now.failure.None? && AgentSpec.Poll(before, limit, available, fragments, accepts) == (rest.0, rest.1 + polled)
  }

  predicate HasNext(now: AgentState, limit: int, available: nat)
    requires now.image.Some?
  {
    var image := now.image.value;
    image.consumed < available && image.consumed < |image.frames| && Position(image) < limit
  }

  /** What consuming the next frame of the image comes to, and how many messages may still be accepted. */
  ghost function OneMore(now: AgentState, left: nat): (r: (AgentState, Action, nat))
    requires now.image.Some? && now.image.value.consumed < |now.image.value.frames|
  {
    var image := now.image.value;
    var f := image.frames[image.consumed];
    var (next, action) := AgentSpec.OnFragment(now, f, left > 0);
    if action == ABORT || action == THROWN then (next, action, left)
    else
      (next.(image := Some(image.(consumed := image.consumed + 1))), action,
       if Offered(now.builder, f).Some? && left > 0 then left - 1 else left)
  }

  lemma FragmentOutcome(now: AgentState, f: Frame, left: nat)
    requires now.failure.None?
    ensures var (next, action) := AgentSpec.OnFragment(now, f, left > 0);
            && next.image == now.image && (next.failure.None? <==> action != THROWN)
            && (Offered(now.builder, f).Some? && action != ABORT ==> left > 0)
  {
  }

  lemma PollIsOneMore(now: AgentState, limit: int, available: nat, fragments: nat, left: nat)
    requires now.image.Some? && now.failure.None? && fragments > 0 && HasNext(now, limit, available)
    ensures var (next, action, remaining) := OneMore(now, left);
            && next.image.Some? && (next.failure.None? <==> action != THROWN)
            && AgentSpec.Poll(now, limit, available, fragments, left) ==
               if action == ABORT || action == THROWN then (next, 0)
               else
                 var rest := AgentSpec.Poll(next, limit, available, fragments - 1, remaining);
                 (rest.0, rest.1 + 1)
  {
    hide AgentSpec.OnFragment, Offered, Position;
    FragmentOutcome(now, now.image.value.frames[now.image.value.consumed], left);
  }

  lemma FragmentPolled(before: AgentState, now: AgentState, limit: int, available: nat, fragments: nat, accepts: nat,
                       polled: nat, left: nat)
    requires before.image.Some? && now.image.Some? && polled < fragments && HasNext(now, limit, available)
    requires PollsTo(before, now, limit, available, fragments, accepts, polled, left)
    ensures var (next, action, remaining) := OneMore(now, left);
            && next.image.Some?
            && if action == ABORT || action == THROWN
               then (next, polled) == AgentSpec.Poll(before, limit, available, fragments, accepts)
               else PollsTo(before, next, limit, available, fragments, accepts, polled + 1, remaining)
  {
    hide AgentSpec.Poll, OneMore;
    PollIsOneMore(now, limit, available, fragments - polled, left);
  }

  lemma PollingStarts(before: AgentState, limit: int, available: nat, fragments: nat, accepts: nat)
    requires before.image.Some? && before.failure.None?
    ensures PollsTo(before, before, limit, available, fragments, accepts, 0, accepts)
  {
  }

  lemma PollingEnds(before: AgentState, now: AgentState, limit: int, available: nat, fragments: nat, accepts: nat,
                    polled: nat, left: nat)
    requires before.image.Some? && now.image.Some? && polled <= fragments
    requires PollsTo(before, now, limit, available, fragments, accepts, polled, left)
    requires polled == fragments || !HasNext(now, limit, available)
    ensures AgentSpec.Poll(before, limit, available, fragments, accepts) == (now, polled)
  {
  }

  /** What is written does not depend on the snapshot under way. */
  lemma WriteStateOfRest(s: AgentState, t: AgentState, snapshot: Snapshot, c: SnapshotCycle)
    requires t == s.(snapshot := t.snapshot)
    ensures WriteState(t, snapshot, c) == WriteState(s, snapshot, c)
  {
  }

  /** A join the consensus module asked for, tried where no image is being read. */
  ghost function JoinIfWaiting(s: AgentState, c: Cycle): (AgentState, bool)
  {
    if s.activeLog.Some? && s.image.None? then
      var (joining, joined) := AgentSpec.JoinActiveLog(s, c);
      (if joining.failure.None? && joined then joining.(activeLog := None) else joining, joined)
    else (s, false)
  }

  lemma AdapterSteps(s: AgentState, c: Cycle)
    ensures AgentSpec.PollServiceAdapter(s, c) ==
            var told := OnAdapterMessage(Noted(s, AdapterPolled(c.nowNs)), c.adapterMessage);
            if told.failure.Some? then told
            else
              var (joining, joined) := JoinIfWaiting(told, c);
              if joining.failure.Some? || joined then joining
              else if joining.requestedAckPosition != NULL_POSITION
              && joining.core.logPosition >= joining.requestedAckPosition then
                SendAck(joining, NULL_VALUE, c.requestClaims).0
              else joining
  {
    hide OnAdapterMessage, AgentSpec.JoinActiveLog, SendAck;
  }
}
