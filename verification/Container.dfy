/** The service container as the objects it is made of. An agent's `View` is its state in the state
    machine; every method is proved to do to it what the state machine says. An exception is the
    `thrown` a method answers. */
module Container {
  import opened Aeron
  import opened SessionTable
  import opened ReplicatedState
  import opened Reassembly
  import opened Publications
  import opened Snapshots
  import opened AgentSpec
  import opened AgentSteps
  import opened ClientSessions
  import opened Proxy
  import opened SnapshotWriter

  class BufferBuilder {
    var bytes: Bytes
    var nextTermOffset: int

    constructor ()
      ensures Built() == EMPTY
    {
      bytes, nextTermOffset := [], NO_OFFSET;
    }

    function Built(): Builder
      reads this
    {
      Builder(bytes, nextTermOffset)
    }

    method Reset()
      modifies this
      ensures Built() == EMPTY
    {
      bytes, nextTermOffset := [], NO_OFFSET;
    }

    method Append(payload: Bytes)
      modifies `bytes
      ensures bytes == old(bytes) + payload
    {
      bytes := bytes + payload;
    }

    method SetLimit(limit: nat)
      requires limit <= |bytes|
      modifies `bytes
      ensures bytes == old(bytes[..limit])
    {
      bytes := bytes[..limit];
    }
  }

  class ActiveLogEvent {
    const logPosition: int
    const maxLogPosition: int
    const memberId: int
    const role: Role
    var subscriptionId: int
    var subscribed: bool
    var image: Option<Image>

    constructor (logPosition: int, maxLogPosition: int, memberId: int, role: Role)
      ensures View() == ActiveLog(logPosition, maxLogPosition, memberId, role, NULL_VALUE, false, None)
    {
      this.logPosition, this.maxLogPosition, this.memberId, this.role := logPosition, maxLogPosition, memberId, role;
      subscriptionId, subscribed, image := NULL_VALUE, false, None;
    }

    ghost function View(): ActiveLog
      reads this
    {
      ActiveLog(logPosition, maxLogPosition, memberId, role, subscriptionId, subscribed, image)
    }

    /** The part of `joinActiveLog` that finds the subscription and its image. */
    method Resolve(c: Cycle) returns (resolved: bool)
      modifies this
      ensures View() == ResolveJoin(old(View()), c)
      ensures resolved <==> Resolved(View())
    {
      if subscriptionId == NULL_VALUE {
        subscriptionId := c.subscriptionId;
        if subscriptionId == NULL_VALUE {
          return false;
        }
      }
      if !subscribed {
        subscribed := c.subscriptionFound;
        if !subscribed {
          return false;
        }
      }
      if image == None {
        image := c.logImage;
      }
      resolved := image.Some?;
    }
  }

  class ClusteredServiceAgent {
    const config: Config
    const journal: Journal
    const proxy: ConsensusModuleProxy
    const adapter: BoundedLogAdapter
    const serviceAdapter: ServiceAdapter
    var sessionByIdMap: map<int, ContainerClientSession>
    var sessions: seq<ContainerClientSession>
    var logPosition: int
    var clusterTime: int
    var leadershipTermId: int
    var memberId: int
    var role: Role
    var ackId: int
    var requestedAckPosition: int
    var terminationPosition: int
    var isAbort: bool
    var lastSlowTickNs: int
    var activeLifecycleCallback: bool
    var activeLogEvent: ActiveLogEvent?
    var currentSnapshot: SnapshotState?

    /** A new agent; the mark of its last tick is what the memory happened to hold. */
    constructor (config: Config, journal: Journal, lastSlowTickNs: int)
      ensures Valid() && this.journal == journal
      ensures fresh(Frame() - {journal})
      ensures View(None) == AgentState(
                              config, Core(NO_SESSIONS, NULL_POSITION, NULL_VALUE, NULL_VALUE), {}, NULL_VALUE,
                              FOLLOWER, 0, NULL_POSITION,
                              NULL_POSITION, false, lastSlowTickNs, EMPTY, None, 0, None, None, journal.notes, None)
    {
      this.config, this.journal := config, journal;
      proxy := new ConsensusModuleProxy(journal);
      adapter := new BoundedLogAdapter(config.fragmentLimit);
      serviceAdapter := new ServiceAdapter();
      sessionByIdMap, sessions := map[], [];
      logPosition, clusterTime, leadershipTermId := NULL_POSITION, NULL_VALUE, NULL_VALUE;
      memberId, role, ackId := NULL_VALUE, FOLLOWER, 0;
      requestedAckPosition, terminationPosition := NULL_POSITION, NULL_POSITION;
      isAbort, this.lastSlowTickNs, activeLifecycleCallback := false, lastSlowTickNs, false;
      activeLogEvent, currentSnapshot := null, null;
    }

    /** The vector is in id order, and every object of the map is one of the vector's, under its own
        id. That the map has all of them, and no two the same id, is a matter of the events applied. */
    ghost predicate Valid()
      reads `sessions, `sessionByIdMap
    {
      && proxy.journal == journal && adapter.fragmentLimit == config.fragmentLimit
      && InOrder(sessions) && MapsInto(sessionByIdMap, sessions)
    }

    ghost function Frame(): set<object>
      reads `sessions, `activeLogEvent, `currentSnapshot
    {
      {this, journal, adapter, adapter.builder}
      + (set s | s in sessions)
      + (if activeLogEvent == null then {} else {activeLogEvent})
      + (if currentSnapshot == null then {} else {currentSnapshot, currentSnapshot.publication})
    }

    ghost function TableView(): Table
      reads `sessions, `sessionByIdMap
    {
      Table(Values(sessions), ValuesById(sessionByIdMap))
    }

    ghost function Closing(): set<int>
      reads `sessionByIdMap, sessionByIdMap.Values
    {
      ClosingIn(sessionByIdMap)
    }

    ghost predicate SessionInView(id: int)
      reads `sessions, `sessionByIdMap
    {
      && (id in TableView().byId <==> id in sessionByIdMap)
      && (id in sessionByIdMap ==> TableView().byId[id] == sessionByIdMap[id].Value())
    }

    ghost function ActiveLogView(): Option<ActiveLog>
      reads `activeLogEvent, activeLogEvent
    {
      if activeLogEvent == null then None else Some(activeLogEvent.View())
    }

    ghost function SnapshotView(): Option<Snapshot>
      reads `currentSnapshot, currentSnapshot, if currentSnapshot == null then {} else {currentSnapshot.publication}
    {
      if currentSnapshot == null then None else Some(currentSnapshot.View())
    }

    ghost function View(failure: Option<Failure>): AgentState
      reads this, journal, adapter, adapter.builder, sessionByIdMap.Values, activeLogEvent, currentSnapshot,
            if currentSnapshot == null then {} else {currentSnapshot.publication}
    {
      AgentState(config, Core(TableView(), logPosition, clusterTime, leadershipTermId), Closing(), memberId, role,
                 ackId, requestedAckPosition, terminationPosition, isAbort, lastSlowTickNs, adapter.builder.Built(),
                 adapter.image,
                 adapter.maxLogPosition, ActiveLogView(), SnapshotView(), journal.notes, failure)
    }

    twostate lemma OnlyBuilderMoved()
      requires old(Valid()) && unchanged(old(Frame()) - {adapter.builder})
      ensures View(None) == old(View(None)).(builder := adapter.builder.Built())
    {
      assert forall id | id in sessionByIdMap :: unchanged(sessionByIdMap[id]);
      hide TableView;
    }

    twostate lemma OnlySnapshotMoved()
      requires old(Valid()) && currentSnapshot != null && old(allocated(currentSnapshot))
               && currentSnapshot == old(currentSnapshot)
      requires unchanged(old(Frame()) - {currentSnapshot, currentSnapshot.publication})
      ensures View(None) == old(View(None)).(snapshot := Some(currentSnapshot.View()))
    {
      assert forall id | id in sessionByIdMap :: unchanged(sessionByIdMap[id]);
      hide TableView;
    }

    /** What `snapshotState` reads of the agent. */
    lemma ViewState()
      ensures View(None).core.table.sessions == Values(sessions) && View(None).core.logPosition == logPosition
      ensures View(None).core.leadershipTermId == leadershipTermId && View(None).config == config
    {
      hide Closing, ActiveLogView, SnapshotView;
    }

    /** `snapshotState` */
    method WriteSnapshotState(publication: SnapshotPublication, results: seq<int>) returns (ending: Ending)
      modifies publication
      ensures var offered := OfferAll(SnapshotOf(Values(sessions), logPosition, leadershipTermId, config.appVersion),
                                      results);
              publication.messages == old(publication.messages) + offered.0 && ending == offered.1
    {
      ending := WriteSnapshot(publication, sessions, logPosition, leadershipTermId, config.appVersion, results);
    }

    lemma ViewFailing(failure: Option<Failure>)
      ensures View(failure) == View(None).(failure := failure)
    {
      hide TableView, Closing, ActiveLogView, SnapshotView;
    }

    method TakeOut(id: int) returns (session: ContainerClientSession?)
      requires Valid()
      modifies `sessionByIdMap, `sessions
      ensures Valid() && fresh(Frame() - old(Frame()))
      ensures var (rest, removed) := Remove(old(TableView()), id);
              && removed == (if session == null then None else Some(session.Value()))
              && View(None) == Without(old(View(None)), rest, id)
    {
      hide TableView, Closing, ActiveLogView, SnapshotView, Valid, Remove;
      session := RemoveSession(id);
    }

    lemma ViewTable(id: int)
      ensures View(None).core.table == TableView() && View(None).failure == None && SessionInView(id)
    {
    }

    /** What every handler does first. */
    method MoveTo(position: int, timestamp: int)
      modifies `logPosition, `clusterTime
      ensures View(None) == Moved(old(View(None)), position, timestamp)
    {
      hide TableView, Closing, ActiveLogView, SnapshotView;
      logPosition, clusterTime := position, timestamp;
    }

    /** Where the table's two representations agree, they hold the very same objects. */
    lemma SameObjects(i: nat)
      requires Valid() && Agrees(TableView()) && i < |sessions|
      ensures sessions[i].id in sessionByIdMap && sessionByIdMap[sessions[i].id] == sessions[i]
    {
      var values := TableView().sessions;
      assert values[i].id in TableView().byId;
      var j :| 0 <= j < |sessions| && sessions[j] == sessionByIdMap[sessions[i].id];
      assert values[j].id == values[i].id;
    }

    /** The vector is strictly ascending by id, and the map has exactly its ids, each with the very
        object of the vector. */
    ghost predicate Indexed()
      reads `sessions, `sessionByIdMap
    {
      && (forall i, j | 0 <= i < j < |sessions| :: sessions[i].id < sessions[j].id)
      && (forall i | 0 <= i < |sessions| ::
            sessions[i].id in sessionByIdMap && sessionByIdMap[sessions[i].id] == sessions[i])
      && (forall id | id in sessionByIdMap :: sessionByIdMap[id].id == id && sessionByIdMap[id] in sessions)
    }

    lemma AgreedIsIndexed()
      requires Valid() && Agrees(TableView())
      ensures Indexed()
    {
      forall i, j | 0 <= i < j < |sessions| ensures sessions[i].id < sessions[j].id {
        assert TableView().sessions[i].id < TableView().sessions[j].id;
      }
      forall i | 0 <= i < |sessions|
        ensures sessions[i].id in sessionByIdMap && sessionByIdMap[sessions[i].id] == sessions[i]
      {
        SameObjects(i);
      }
    }

    // ---- The session table ----

    method AddSession(session: ContainerClientSession)
      requires Valid() && !session.isClosing
      modifies `sessionByIdMap, `sessions
      ensures Valid() && TableView() == Add(old(TableView()), session.Value()) && Closing() == old(Closing())
      ensures forall s :: s in sessions <==> s in old(sessions) || s == session
    {
      hide InOrder, Values, ValuesById, Inserted, LowerBound, Put;
      var index := FindLowerBound(sessions, session.id);
      LowerBoundSplits(sessions, session.id);
      InsertedInOrder(sessions, index, session);
      InsertedHas(sessions, index, session);
      ValuesAfterInsert(sessionByIdMap, session);
      hide ClosingIn;
      if session.id !in sessionByIdMap {
        ClosingAfterInsert(sessionByIdMap, session);
        sessionByIdMap := sessionByIdMap[session.id := session];
      }
      sessions := Inserted(sessions, index, session);
    }

    method RemoveSession(id: int) returns (session: ContainerClientSession?)
      requires Valid()
      modifies `sessionByIdMap, `sessions
      ensures Valid() && Closing() == old(Closing()) - {id}
      ensures (TableView(), if session == null then None else Some(session.Value())) == Remove(old(TableView()), id)
      ensures forall s | s in sessions :: s in old(sessions)
    {
      hide InOrder, Values, ValuesById, Erased, Find, Cut, ClosingIn;
      ClosingAfterErase(sessionByIdMap, id);
      ValuesAfterErase(sessionByIdMap, id);
      sessionByIdMap := sessionByIdMap - {id};
      var index := FindById(sessions, id);
      if index < |sessions| {
        session := sessions[index];
        ErasedInOrder(sessions, index);
        sessions := Erased(sessions, index);
      } else {
        session := null;
      }
    }

    /** Makes the session's object and adds it; what is told of it comes last. */
    method TakeSession(session: Session, ghost told: Note)
      requires Valid()
      modifies `sessionByIdMap, `sessions, journal
      ensures Valid() && fresh(Frame() - old(Frame()))
      ensures View(None) == WithTable(old(View(None)), Add(old(TableView()), session), told)
    {
      hide TableView, Closing, ActiveLogView, SnapshotView, Valid, Add;
      var made := new ContainerClientSession(session.id, session.responseStreamId, session.responseChannel,
                                             session.encodedPrincipal);
      AddSession(made);
      journal.notes := journal.notes + [told];
    }

    /** The overload of `addSession` that the snapshot loader calls; it does not look for the id. */
    method RestoreSession(id: int, responseStreamId: int, responseChannel: string, encodedPrincipal: Bytes)
      requires Valid()
      modifies `sessionByIdMap, `sessions, journal
      ensures Valid() && fresh(Frame() - old(Frame()))
      ensures var session := Session(id, responseStreamId, responseChannel, encodedPrincipal);
              View(None) == WithTable(old(View(None)), Add(old(TableView()), session), Restored(session))
    {
      var session := Session(id, responseStreamId, responseChannel, encodedPrincipal);
      TakeSession(session, Restored(session));
    }

    // ---- The handlers of log events ----

    ghost method Call(callback: Callback)
      modifies journal
      ensures View(None) == Noted(old(View(None)), Called(callback))
    {
      hide TableView, Closing, ActiveLogView, SnapshotView;
      journal.notes := journal.notes + [Called(callback)];
    }

    method OnSessionMessage(position: int, clusterSessionId: int, timestamp: int, body: Bytes)
      requires Valid()
      modifies `logPosition, `clusterTime, journal
      ensures Valid() && View(None) == Apply(old(View(None)), SessionMessage(clusterSessionId, timestamp, body),
                                             position)
    {
      ApplyMessage(View(None), clusterSessionId, timestamp, body, position);
      hide View, TableView, Valid, Apply;
      ViewTable(clusterSessionId);
      MoveTo(position, timestamp);
      if clusterSessionId in sessionByIdMap {
        Call(Callback.OnSessionMessage(sessionByIdMap[clusterSessionId].Value(), timestamp, body));
      }
    }

    method OnTimerEvent(position: int, correlationId: int, timestamp: int)
      requires Valid()
      modifies `logPosition, `clusterTime, journal
      ensures Valid() && View(None) == Apply(old(View(None)), TimerEvent(correlationId, timestamp), position)
    {
      hide View, Valid;
      ViewTable(0);
      MoveTo(position, timestamp);
      Call(Callback.OnTimerEvent(correlationId, timestamp));
    }

    method OnSessionOpen(termId: int, position: int, clusterSessionId: int, timestamp: int, responseStreamId: int,
                         responseChannel: string, encodedPrincipal: Bytes) returns (thrown: Option<Failure>)
      requires Valid()
      modifies `logPosition, `clusterTime, `sessionByIdMap, `sessions, journal
      ensures Valid() && fresh(Frame() - old(Frame()))
      ensures View(thrown) == Opened(old(View(None)),
                                     Session(clusterSessionId, responseStreamId, responseChannel, encodedPrincipal),
                                     timestamp, position)
    {
      hide View, TableView, Valid, Add;
      ViewTable(clusterSessionId);
      MoveTo(position, timestamp);
      if clusterSessionId in sessionByIdMap {
        ViewFailing(Some(ClashingOpen(clusterSessionId)));
        return Some(ClashingOpen(clusterSessionId));
      }
      var session := Session(clusterSessionId, responseStreamId, responseChannel, encodedPrincipal);
      TakeSession(session, Called(Callback.OnSessionOpen(session, timestamp)));
      thrown := None;
    }

    method OnSessionClose(termId: int, position: int, clusterSessionId: int, timestamp: int, closeReason: int)
      returns (thrown: Option<Failure>)
      requires Valid()
      modifies `logPosition, `clusterTime, `sessionByIdMap, `sessions, journal
      ensures Valid() && fresh(Frame() - old(Frame()))
      ensures View(thrown) == Apply(old(View(None)),
                                    SessionCloseEvent(termId, clusterSessionId, timestamp, closeReason), position)
    {
      ApplyClose(View(None), termId, clusterSessionId, timestamp, closeReason, position);
      hide View, TableView, Valid, Remove, Apply;
      ViewTable(clusterSessionId);
      MoveTo(position, timestamp);
      var session := TakeOut(clusterSessionId);
      if session == null {
        ViewFailing(Some(UnknownClose(clusterSessionId)));
        return Some(UnknownClose(clusterSessionId));
      }
      Call(Callback.OnSessionClose(session.Value(), timestamp, closeReason));
      thrown := None;
    }

    method OnServiceAction(termId: int, position: int, timestamp: int, action: ClusterAction)
      requires Valid()
      modifies `logPosition, `clusterTime, `currentSnapshot
      ensures Valid() && fresh(Frame() - old(Frame()))
      ensures View(None) == Apply(old(View(None)), ClusterActionRequest(termId, position, timestamp, action), position)
    {
      ApplyAction(View(None), termId, position, timestamp, action);
      hide View, Valid, Apply;
      ViewTable(0);
      MoveTo(position, timestamp);
      ExecuteAction(action);
    }

    /** The adapter passes the default flags, with which every snapshot is due. */
    method ExecuteAction(action: ClusterAction)
      requires Valid()
      modifies `currentSnapshot
      ensures Valid() && fresh(Frame() - old(Frame()))
      ensures var snapshot := if action.SNAPSHOT? then Some(NEW_SNAPSHOT) else old(SnapshotView());
              View(None) == old(View(None)).(snapshot := snapshot)
      ensures old(View(None)).snapshot == old(SnapshotView())
    {
      hide TableView, Closing, ActiveLogView, Valid;
      if action.SNAPSHOT? {
        OnTakeSnapshot();
      }
    }

    method OnTakeSnapshot()
      modifies `currentSnapshot
      ensures currentSnapshot != null && fresh(currentSnapshot) && fresh(currentSnapshot.publication)
      ensures currentSnapshot.View() == NEW_SNAPSHOT
    {
      currentSnapshot := new SnapshotState();
    }

    method OnNewLeadershipTermEvent(termId: int, position: int, timestamp: int, termBaseLogPosition: int,
                                    leaderMemberId: int, logSessionId: int, appVersion: int)
      requires Valid()
      modifies `leadershipTermId, `logPosition, `clusterTime, journal
      ensures Valid()
      ensures View(None) == Apply(old(View(None)),
                                  NewLeadershipTermEvent(termId, position, timestamp, termBaseLogPosition,
                                                         leaderMemberId, logSessionId, appVersion), position)
    {
      hide TableView, Closing, ActiveLogView, SnapshotView, Valid;
      leadershipTermId, logPosition, clusterTime := termId, position, timestamp;
      Call(Callback.OnNewLeadershipTermEvent(termId, position, timestamp, termBaseLogPosition, leaderMemberId,
                                             logSessionId, appVersion));
    }

    method OnMembershipChange(position: int, timestamp: int, quit: bool, member: int)
      requires Valid()
      modifies `logPosition, `clusterTime
      ensures Valid() && View(None) == Apply(old(View(None)), MembershipChangeEvent(position, timestamp, quit, member),
                                             position)
    {
      hide View, Valid;
      ViewTable(0);
      MoveTo(position, timestamp);
      assert View(None).journal + CalledAll([]) == View(None).journal;
    }

    // ---- Acks, roles and closing ----

    method Ack(relevantId: int, results: seq<int>) returns (sent: bool, thrown: Option<Failure>)
      requires Valid()
      modifies `ackId, `requestedAckPosition, journal
      ensures Valid() && (View(thrown), sent) == SendAck(old(View(None)), relevantId, results)
              && (thrown.Some? ==> !sent)
    {
      assert proxy.journal == journal;
      hide TableView, Closing, ActiveLogView, SnapshotView, Valid, Publications.TryClaim;
      var claim := proxy.Ack(logPosition, clusterTime, ackId, relevantId, config.serviceId, results);
      match claim
      case CLAIMED =>
        ackId := ackId + 1;
        if relevantId == NULL_VALUE {
          requestedAckPosition := NULL_POSITION;
        }
        sent, thrown := true, None;
      case GAVE_UP =>
        sent, thrown := false, None;
      case REFUSED(result) =>
        sent, thrown := false, Some(PublicationState(result));
    }

    method ChangeRole(newRole: Role)
      requires Valid()
      modifies `role, `activeLifecycleCallback, journal
      ensures Valid() && View(None) == SetRole(old(View(None)), newRole)
    {
      hide TableView, Closing, ActiveLogView, SnapshotView, Valid;
      if newRole != role {
        role := newRole;
        activeLifecycleCallback := true;
        journal.notes := journal.notes + [Called(OnRoleChange(newRole))];
        activeLifecycleCallback := false;
      }
    }

    method CloseLog()
      requires Valid() && adapter.image.Some?
      modifies `logPosition, `role, `activeLifecycleCallback, journal, adapter`image
      ensures Valid() && View(None) == AgentSpec.CloseLog(old(View(None)))
    {
      hide TableView, Closing, ActiveLogView, SnapshotView, Valid;
      logPosition := Max(Position(adapter.image.value), logPosition);
      adapter.Close();
      ChangeRole(FOLLOWER);
    }

    method CloseClientSession(id: int, results: seq<int>) returns (answer: CloseAnswer)
      requires Valid()
      modifies journal, if id in sessionByIdMap then {sessionByIdMap[id]} else {}
      ensures Valid()
      ensures (View(None), answer) == AgentSpec.CloseClientSession(old(View(None)), id, activeLifecycleCallback,
                                                                   results)
    {
      assert proxy.journal == journal;
      ViewTable(id);
      ClosingMarks(id);
      hide TableView, Closing, ActiveLogView, SnapshotView, Publications.TryClaim;
      if activeLifecycleCallback {
        return INVALID_INVOCATION;
      }
      if id !in sessionByIdMap {
        return UNKNOWN_SESSION;
      }
      var session := sessionByIdMap[id];
      if session.isClosing {
        return CLOSING;
      }
      var claim := proxy.CloseSession(id, results);
      match claim
      case CLAIMED =>
        MarkClosing(id);
        answer := CLOSING;
      case GAVE_UP =>
        answer := NOT_SENT;
      case REFUSED(result) =>
        answer := CLOSE_REFUSED(result);
    }

    /** The same from inside a callback of the service, or from outside any. */
    method CloseAskedBy(id: int, inLifecycleCallback: bool, results: seq<int>) returns (answer: CloseAnswer)
      requires Valid()
      modifies journal, `activeLifecycleCallback, if id in sessionByIdMap then {sessionByIdMap[id]} else {}
      ensures Valid()
      ensures (View(None), answer) == AgentSpec.CloseClientSession(old(View(None)), id, inLifecycleCallback, results)
    {
      hide TableView, Closing, ActiveLogView, SnapshotView, Valid, AgentSpec.CloseClientSession;
      activeLifecycleCallback := inLifecycleCallback;
      answer := CloseClientSession(id, results);
      activeLifecycleCallback := false;
    }

    lemma ClosingMarks(id: int)
      ensures id in sessionByIdMap ==> (sessionByIdMap[id].isClosing <==> id in Closing())
    {
    }

    method MarkClosing(id: int)
      requires Valid() && id in sessionByIdMap
      modifies sessionByIdMap[id]
      ensures Closing() == old(Closing()) + {id}
    {
      assert forall other | other in sessionByIdMap && other != id :: sessionByIdMap[other] != sessionByIdMap[id];
      sessionByIdMap[id].MarkClosing();
      assert forall other | other in sessionByIdMap && other != id :: other in Closing() <==> other in old(Closing());
    }

    /** A leader's join takes the closing mark off every session of the vector. */
    method ResetClosing()
      requires Valid()
      modifies set s | s in sessions
      modifies journal
      ensures Valid()
      ensures View(None) == Noted(old(View(None)), ClosingReset).(closing := {})
    {
      var i := 0;
      while i < |sessions|
        invariant i <= |sessions|
        invariant forall k | 0 <= k < i :: !sessions[k].isClosing
        modifies set s | s in sessions
      {
        sessions[i].ResetClosing();
        i := i + 1;
      }
      assert forall s | s in sessions :: !s.isClosing;
      assert forall id | id in sessionByIdMap :: !sessionByIdMap[id].isClosing;
      assert Closing() == {};
      hide TableView, Closing, ActiveLogView, SnapshotView;
      journal.notes := journal.notes + [ClosingReset];
    }

    /** The state of the recovery counter. */
    method Recover(position: int, timestamp: int, termId: int)
      modifies `logPosition, `clusterTime, `leadershipTermId
      ensures var before := old(View(None));
              View(None) == before.(core := before.core.(
                logPosition := position, clusterTime := timestamp, leadershipTermId := termId))
    {
      hide TableView, Closing, ActiveLogView, SnapshotView;
      logPosition, clusterTime, leadershipTermId := position, timestamp, termId;
    }

    // ---- Joining a log ----

    method OnJoinLog(logPosition: int, maxLogPosition: int, memberId: int, role: Role)
      requires Valid()
      modifies `activeLogEvent, adapter`image, adapter`maxLogPosition
      ensures Valid() && fresh(activeLogEvent)
      ensures View(None) == old(View(None)).(maxLogPosition := maxLogPosition, image := None,
                            activeLog := Some(ActiveLog(
                              logPosition, maxLogPosition, memberId, role, NULL_VALUE, false, None)))
    {
      hide TableView, Closing, SnapshotView, Valid;
      adapter.maxLogPosition := maxLogPosition;
      adapter.image := None;
      activeLogEvent := new ActiveLogEvent(logPosition, maxLogPosition, memberId, role);
    }

    method ResolveActiveLog(c: Cycle) returns (resolved: bool)
      requires activeLogEvent != null
      modifies activeLogEvent
      ensures View(None) == old(View(None)).(activeLog := Some(ResolveJoin(old(activeLogEvent.View()), c)))
      ensures activeLogEvent.View() == ResolveJoin(old(activeLogEvent.View()), c)
      ensures resolved <==> Resolved(activeLogEvent.View())
    {
      hide TableView, Closing, SnapshotView, ResolveJoin;
      resolved := activeLogEvent.Resolve(c);
    }

    /** The adapter takes the image; the event lets go of the subscription. */
    method TakeImage()
      requires activeLogEvent != null
      modifies activeLogEvent, adapter`image, adapter`maxLogPosition
      ensures var a := old(activeLogEvent.View());
              View(None) == old(View(None)).(image := a.image, maxLogPosition := a.maxLogPosition,
                activeLog := Some(a.(subscribed := false)))
    {
      hide TableView, Closing, SnapshotView;
      adapter.image := activeLogEvent.image;
      adapter.maxLogPosition := activeLogEvent.maxLogPosition;
      activeLogEvent.subscribed := false;
    }

    method TakeMember(id: int)
      modifies `memberId
      ensures View(None) == old(View(None)).(memberId := id)
    {
      hide TableView, Closing, ActiveLogView, SnapshotView;
      memberId := id;
    }

    lemma ViewAckPositions()
      ensures View(None).core.logPosition == logPosition && View(None).requestedAckPosition == requestedAckPosition
    {
      hide TableView, Closing, ActiveLogView, SnapshotView;
    }

    lemma ViewFields()
      ensures View(None).core.logPosition == logPosition && View(None).failure == None
      ensures View(None).activeLog == (if activeLogEvent == null then None else Some(activeLogEvent.View()))
      ensures View(None).image == adapter.image && View(None).maxLogPosition == adapter.maxLogPosition
      ensures View(None).builder == adapter.builder.Built() && View(None).config == config
      ensures View(None).snapshot == (if currentSnapshot == null then None else Some(currentSnapshot.View()))
    {
      hide TableView, Closing;
    }

    method JoinActiveLog(c: Cycle) returns (joined: bool, thrown: Option<Failure>)
      requires Valid() && activeLogEvent != null
      modifies activeLogEvent, adapter`image, adapter`maxLogPosition, journal, set s | s in sessions
      modifies `ackId, `requestedAckPosition, `memberId, `role, `activeLifecycleCallback
      ensures Valid()
      ensures old(View(None)).activeLog.Some? && (View(thrown), joined) == AgentSpec.JoinActiveLog(old(View(None)), c)
    {
      hide View, Valid, SendAck, AgentSpec.SetRole, ResolveJoin;
      ViewFields();
      var resolved := ResolveActiveLog(c);
      if !resolved {
        return false, None;
      }
      if activeLogEvent.image.value.joinPosition != logPosition {
        ViewFailing(Some(NotContiguousImage));
        return false, Some(NotContiguousImage);
      }
      if activeLogEvent.logPosition != logPosition {
        ViewFailing(Some(NotContiguousEvent));
        return false, Some(NotContiguousEvent);
      }
      TakeImage();
      var acked;
      acked, thrown := Ack(NULL_VALUE, c.joinClaims);
      ViewFailing(thrown);
      if thrown.Some? {
        return false, thrown;
      }
      TakeMember(activeLogEvent.memberId);
      if activeLogEvent.role.LEADER? {
        ResetClosing();
      }
      ChangeRole(activeLogEvent.role);
      joined := true;
    }

    // ---- The duty cycle ----

    method CheckForClockTick(c: Cycle) returns (ticked: bool, thrown: Option<Failure>)
      requires Valid()
      modifies `isAbort, `lastSlowTickNs
      ensures Valid() && (View(thrown), ticked) == AgentSpec.CheckForClockTick(old(View(None)), c)
    {
      hide TableView, Closing, ActiveLogView, SnapshotView, Valid;
      if isAbort || c.aeronClosed {
        isAbort := true;
        return false, Some(AeronClosed);
      }
      if c.nowNs - lastSlowTickNs > TICK_NS {
        lastSlowTickNs := c.nowNs;
        if isAbort || c.aeronClosedLater {
          isAbort := true;
          return false, Some(AeronClosed);
        }
        if c.commitPositionClosed {
          return false, Some(CommitPositionClosed);
        }
        return true, None;
      }
      return false, None;
    }

    method OnServiceTerminationPosition(position: int)
      modifies `terminationPosition
      ensures View(None) == old(View(None)).(terminationPosition := position)
    {
      hide TableView, Closing, ActiveLogView, SnapshotView;
      terminationPosition := position;
    }

    method OnRequestServiceAck(position: int)
      modifies `requestedAckPosition
      ensures View(None) == old(View(None)).(requestedAckPosition := position)
    {
      hide TableView, Closing, ActiveLogView, SnapshotView;
      requestedAckPosition := position;
    }

    method ForgetActiveLog()
      modifies `activeLogEvent
      ensures View(None) == old(View(None)).(activeLog := None)
      ensures activeLogEvent == null
    {
      hide TableView, Closing, SnapshotView;
      activeLogEvent := null;
    }

    ghost method NotePoll(nowNs: int)
      modifies journal
      ensures View(None) == Noted(old(View(None)), AdapterPolled(nowNs))
    {
      hide TableView, Closing, ActiveLogView, SnapshotView;
      journal.notes := journal.notes + [AdapterPolled(nowNs)];
    }

    method TryJoin(c: Cycle) returns (joined: bool, thrown: Option<Failure>)
      requires Valid()
      modifies activeLogEvent, adapter`image, adapter`maxLogPosition, journal, set s | s in sessions
      modifies `ackId, `requestedAckPosition, `memberId, `role, `activeLifecycleCallback, `activeLogEvent
      ensures Valid() && (activeLogEvent == null || activeLogEvent == old(activeLogEvent)) && View(None).failure == None
      ensures (View(thrown), joined) == JoinIfWaiting(old(View(None)), c)
    {
      hide View, Valid, AgentSpec.JoinActiveLog;
      ViewFields();
      joined, thrown := false, None;
      if activeLogEvent != null && adapter.image.None? {
        joined, thrown := JoinActiveLog(c);
        ViewFailing(thrown);
        if thrown.None? && joined {
          ForgetActiveLog();
        }
      }
      ViewFields();
    }

    method PollServiceAdapter(c: Cycle) returns (thrown: Option<Failure>)
      requires Valid()
      modifies journal, activeLogEvent, adapter`image, adapter`maxLogPosition, set s | s in sessions
      modifies `ackId, `requestedAckPosition, `terminationPosition, `memberId, `role, `activeLifecycleCallback,
               `activeLogEvent
      ensures Valid() && (activeLogEvent == null || activeLogEvent == old(activeLogEvent) || fresh(activeLogEvent))
      ensures View(thrown) == AgentSpec.PollServiceAdapter(old(View(None)), c)
    {
      hide View, Valid, SendAck, JoinIfWaiting, OnAdapterMessage, AgentSpec.PollServiceAdapter;
      AdapterSteps(View(None), c);
      NotePoll(c.nowNs);
      thrown := serviceAdapter.OnFragment(this, c.adapterMessage);
      ViewFailing(thrown);
      if thrown.Some? {
        return;
      }
      var joined;
      joined, thrown := TryJoin(c);
      ViewFailing(thrown);
      if thrown.Some? || joined {
        return;
      }
      ViewAckPositions();
      if requestedAckPosition != NULL_POSITION && logPosition >= requestedAckPosition {
        joined, thrown := Ack(NULL_VALUE, c.requestClaims);
      }
    }

    method ForgetSnapshot()
      requires Valid()
      modifies `currentSnapshot
      ensures Valid() && currentSnapshot == null && View(None) == old(View(None)).(snapshot := None)
    {
      hide TableView, Closing, ActiveLogView, Valid;
      currentSnapshot := null;
    }

    method PollLog(c: Cycle) returns (thrown: Option<Failure>)
      requires Valid()
      modifies this, journal, adapter, adapter.builder
      ensures Valid() && fresh(Frame() - old(Frame()))
      ensures View(thrown) == AgentSpec.PollLog(old(View(None)), c)
    {
      hide View, AgentSpec.Poll, AgentSpec.CloseLog;
      ViewFields();
      thrown := None;
      if adapter.image.Some? {
        var polled;
        polled, thrown := adapter.Poll(this, c.commitPosition, if c.imageClosed then 0 else c.available, c.accepts);
        ViewFailing(thrown);
        ViewFields();
        if thrown.None? && polled == 0 && adapter.IsDone(c) {
          CloseLog();
        }
      }
    }

    /** The service adapter is polled once a tick. */
    method PollOnTick(c: Cycle) returns (thrown: Option<Failure>)
      requires Valid()
      modifies journal, activeLogEvent, adapter`image, adapter`maxLogPosition, set s | s in sessions
      modifies `ackId, `requestedAckPosition, `terminationPosition, `memberId, `role, `activeLifecycleCallback,
               `activeLogEvent
      modifies `isAbort, `lastSlowTickNs
      ensures Valid() && (activeLogEvent == null || activeLogEvent == old(activeLogEvent) || fresh(activeLogEvent))
      ensures var (clock, ticked) := AgentSpec.CheckForClockTick(old(View(None)), c);
              View(thrown) == if clock.failure.None? && ticked then AgentSpec.PollServiceAdapter(clock, c) else clock
    {
      hide View, Valid, AgentSpec.PollServiceAdapter, AgentSpec.CheckForClockTick;
      var ticked;
      ticked, thrown := CheckForClockTick(c);
      ViewFailing(thrown);
      if thrown.None? && ticked {
        thrown := PollServiceAdapter(c);
      }
    }

    /** The part of a duty cycle behind a snapshot: the clock, the service adapter, and the log. */
    method PollAll(c: Cycle) returns (thrown: Option<Failure>)
      requires Valid()
      modifies this, journal, adapter, adapter.builder, activeLogEvent, set s | s in sessions
      ensures Valid() && fresh(Frame() - old(Frame()))
      ensures View(thrown) == AgentSpec.PollAll(old(View(None)), c)
    {
      hide View, Valid, AgentSpec.PollServiceAdapter, AgentSpec.PollLog, AgentSpec.CheckForClockTick;
      thrown := PollOnTick(c);
      ViewFailing(thrown);
      if thrown.None? {
        thrown := PollLog(c);
      }
    }

    /** One duty cycle; while a snapshot is under way it is nothing but that. */
    method DoWork(c: Cycle) returns (thrown: Option<Failure>)
      requires Valid()
      modifies Frame()
      ensures Valid() && fresh(Frame() - old(Frame()))
      ensures View(thrown) == AgentSpec.DoWork(old(View(None)), c)
    {
      hide View, Valid, SnapshotWork, AgentSpec.PollAll, SnapshotState.View;
      ViewFields();
      if currentSnapshot != null {
        var done;
        done, thrown := currentSnapshot.DoWork(this, c.snapshot);
        ViewFailing(thrown);
        if thrown.Some? || !done {
          return;
        }
        ForgetSnapshot();
      }
      thrown := PollAll(c);
    }
  }

  /** The subscriber to the consensus module; a poll delivers at most one message. */
  class ServiceAdapter {
    constructor () {
    }

    method OnFragment(agent: ClusteredServiceAgent, message: AdapterMessage) returns (thrown: Option<Failure>)
      requires agent.Valid()
      modifies agent`activeLogEvent, agent`terminationPosition, agent`requestedAckPosition
      modifies agent.adapter`image, agent.adapter`maxLogPosition
      ensures agent.Valid()
      ensures agent.activeLogEvent == old(agent.activeLogEvent) || fresh(agent.activeLogEvent)
      ensures agent.View(thrown) == OnAdapterMessage(old(agent.View(None)), message)
    {
      hide ClusteredServiceAgent.View, ClusteredServiceAgent.Valid;
      thrown := None;
      match message
      case JoinLog(logPosition, maxLogPosition, memberId, code) =>
        var role := RoleOf(code);
        if role.None? {
          agent.ViewFailing(Some(InvalidRole));
          return Some(InvalidRole);
        }
        agent.OnJoinLog(logPosition, maxLogPosition, memberId, role.value);
      case ServiceTerminationPosition(logPosition) =>
        agent.OnServiceTerminationPosition(logPosition);
      case RequestServiceAck(logPosition) =>
        agent.OnRequestServiceAck(logPosition);
      case OtherAdapterMessage =>
      case ForeignAdapterMessage =>
        agent.ViewFailing(Some(UnexpectedSchema));
        thrown := Some(UnexpectedSchema);
    }
  }

  class BoundedLogAdapter {
    const fragmentLimit: nat
    const builder: BufferBuilder
    var maxLogPosition: int
    var image: Option<Image>

    constructor (fragmentLimit: nat)
      ensures this.fragmentLimit == fragmentLimit && fresh(builder)
      ensures builder.Built() == EMPTY && image == None && maxLogPosition == 0
    {
      this.fragmentLimit := fragmentLimit;
      builder := new BufferBuilder();
      maxLogPosition, image := 0, None;
    }

    method Close()
      modifies `image
      ensures image == None
    {
      image := None;
    }

    predicate IsDone(c: Cycle)
      reads `image, `maxLogPosition
    {
      image.None? || Position(image.value) >= maxLogPosition || c.endOfStream || c.imageClosed
    }

    /** The dispatch of one message; a handler that does not accept it leaves all as it was. */
    method OnMessage(agent: ClusteredServiceAgent, payload: Bytes, position: int, accepts: bool)
      returns (action: Action, thrown: Option<Failure>)
      requires agent.Valid()
      modifies agent`logPosition, agent`clusterTime, agent`leadershipTermId, agent`sessionByIdMap, agent`sessions
      modifies agent`currentSnapshot, agent.journal
      ensures agent.Valid() && fresh(agent.Frame() - old(agent.Frame()))
      ensures action == if !accepts then ABORT else if thrown.Some? then THROWN else CONTINUE
      ensures agent.View(thrown) == if !accepts then old(agent.View(None)) else
                                    Apply(old(agent.View(None)), agent.config.decode(payload), position)
    {
      hide ClusteredServiceAgent.View, ClusteredServiceAgent.Valid, ClusteredServiceAgent.TableView, Apply, Opened;
      agent.ViewFields();
      if !accepts {
        return ABORT, None;
      }
      thrown := None;
      var e := agent.config.decode(payload);
      match e {
        case SessionMessage(id, timestamp, body) =>
          agent.OnSessionMessage(position, id, timestamp, body);
        case TimerEvent(correlationId, timestamp) =>
          agent.OnTimerEvent(position, correlationId, timestamp);
        case SessionOpenEvent(termId, id, timestamp, responseStreamId, responseChannel, principal) =>
          ApplyOpen(agent.View(None), e, position);
          thrown := agent.OnSessionOpen(termId, position, id, timestamp, responseStreamId, responseChannel,
                                        Blank(principal));
        case SessionCloseEvent(termId, id, timestamp, reason) =>
          thrown := agent.OnSessionClose(termId, position, id, timestamp, reason);
        case ClusterActionRequest(termId, logPosition, timestamp, clusterAction) =>
          ApplyAtOwnPosition(agent.View(None), e, position);
          agent.OnServiceAction(termId, logPosition, timestamp, clusterAction);
        case NewLeadershipTermEvent(termId, logPosition, timestamp, baseLogPosition, leaderMemberId, logSessionId,
                                    appVersion) =>
          ApplyAtOwnPosition(agent.View(None), e, position);
          agent.OnNewLeadershipTermEvent(termId, logPosition, timestamp, baseLogPosition, leaderMemberId, logSessionId,
                                         appVersion);
        case MembershipChangeEvent(logPosition, timestamp, quit, memberId) =>
          ApplyAtOwnPosition(agent.View(None), e, position);
          agent.OnMembershipChange(logPosition, timestamp, quit, memberId);
        case OtherTemplate =>
          ApplyUndispatched(agent.View(None), e, position);
        case OtherSchema =>
          ApplyUndispatched(agent.View(None), e, position);
          agent.ViewFailing(Some(UnexpectedSchema));
          thrown := Some(UnexpectedSchema);
      }
      action := if thrown.Some? then THROWN else CONTINUE;
    }

    /** The last part goes behind the others, and the whole to the handler. */
    method CompleteMessage(agent: ClusteredServiceAgent, f: Frame, accepts: bool)
      returns (action: Action, thrown: Option<Failure>)
      requires agent.Valid() && agent.adapter == this
      modifies agent`logPosition, agent`clusterTime, agent`leadershipTermId, agent`sessionByIdMap, agent`sessions
      modifies agent`currentSnapshot, agent.journal, builder`bytes
      ensures agent.Valid() && fresh(agent.Frame() - old(agent.Frame()))
      ensures builder.bytes == old(builder.bytes) + f.payload
      ensures action == if !accepts then ABORT else if thrown.Some? then THROWN else CONTINUE
      ensures var before := old(agent.View(None));
              agent.View(thrown).(builder := before.builder) ==
              if accepts then Apply(before, agent.config.decode(builder.bytes), f.position) else before
      ensures agent.View(thrown).builder == builder.Built()
    {
      hide ClusteredServiceAgent.View, ClusteredServiceAgent.Valid, Apply;
      ghost var before := agent.View(None);
      builder.Append(f.payload);
      agent.OnlyBuilderMoved();
      ghost var held := builder.Built();
      action, thrown := OnMessage(agent, builder.bytes, f.position, accepts);
      ApplyKeepsBuilder(before, agent.config.decode(held.bytes), f.position, held);
    }

    /** The last part of a message: an aborted one is taken out of the builder again. */
    method OnLastFragment(agent: ClusteredServiceAgent, f: Frame, accepts: bool)
      returns (action: Action, thrown: Option<Failure>)
      requires agent.Valid() && agent.adapter == this
      requires !f.IsWhole() && !f.Begins() && f.Ends() && f.offset == builder.nextTermOffset
      modifies agent`logPosition, agent`clusterTime, agent`leadershipTermId, agent`sessionByIdMap, agent`sessions
      modifies agent`currentSnapshot, agent.journal, builder
      ensures agent.Valid() && fresh(agent.Frame() - old(agent.Frame()))
      ensures (agent.View(thrown), action) == AgentSpec.OnFragment(old(agent.View(None)), f, accepts)
    {
      hide ClusteredServiceAgent.View, ClusteredServiceAgent.Valid, Apply, AgentSpec.OnFragment;
      agent.ViewFields();
      LastFragment(agent.View(None), f, accepts);
      var limit := |builder.bytes|;
      action, thrown := CompleteMessage(agent, f, accepts);
      agent.ViewFailing(thrown);
      if action == THROWN {
        return;
      }
      assert builder.bytes[..limit] == old(builder.bytes);
      TakeBack(agent, action, limit);
    }

    /** Back to the limit from before the last part if its message was aborted, else empty. */
    method TakeBack(agent: ClusteredServiceAgent, action: Action, limit: nat)
      requires agent.Valid() && agent.adapter == this && limit <= |builder.bytes|
      modifies builder
      ensures agent.Valid()
      ensures var aborted := Builder(old(builder.bytes)[..limit], old(builder.nextTermOffset));
              var left := if action == ABORT then aborted else EMPTY;
              agent.View(None) == old(agent.View(None)).(builder := left)
    {
      hide ClusteredServiceAgent.View, ClusteredServiceAgent.Valid;
      if action == ABORT {
        builder.SetLimit(limit);
      } else {
        builder.Reset();
      }
      agent.OnlyBuilderMoved();
    }

    /** `onFragment`: whole frames go straight through; parts are collected where they follow on. */
    method OnFragment(agent: ClusteredServiceAgent, f: Frame, accepts: bool)
      returns (action: Action, thrown: Option<Failure>)
      requires agent.Valid() && agent.adapter == this
      modifies agent`logPosition, agent`clusterTime, agent`leadershipTermId, agent`sessionByIdMap, agent`sessions
      modifies agent`currentSnapshot, agent.journal, builder
      ensures agent.Valid() && fresh(agent.Frame() - old(agent.Frame()))
      ensures (agent.View(thrown), action) == AgentSpec.OnFragment(old(agent.View(None)), f, accepts)
    {
      hide ClusteredServiceAgent.View, ClusteredServiceAgent.Valid, Apply, AgentSpec.OnFragment;
      agent.ViewFields();
      OtherFragment(agent.View(None), f, accepts);
      action, thrown := CONTINUE, None;
      if f.IsWhole() {
        action, thrown := OnMessage(agent, f.payload, f.position, accepts);
        agent.ViewFailing(thrown);
      } else if f.Begins() {
        builder.Reset();
        builder.Append(f.payload);
        builder.nextTermOffset := f.NextOffset();
        assert [] + f.payload == f.payload;
        agent.OnlyBuilderMoved();
      } else if f.offset == builder.nextTermOffset {
        if f.Ends() {
          action, thrown := OnLastFragment(agent, f, accepts);
        } else {
          builder.Append(f.payload);
          builder.nextTermOffset := f.NextOffset();
          agent.OnlyBuilderMoved();
        }
      } else {
        builder.Reset();
        agent.OnlyBuilderMoved();
      }
    }

    method Advance(agent: ClusteredServiceAgent)
      requires agent.Valid() && agent.adapter == this && image.Some? && image.value.consumed < |image.value.frames|
      modifies `image
      ensures agent.Valid()
      ensures image == Some(old(image.value).(consumed := old(image.value.consumed) + 1))
      ensures agent.View(None) == old(agent.View(None)).(image := image)
    {
      hide ClusteredServiceAgent.TableView, ClusteredServiceAgent.Closing, ClusteredServiceAgent.ActiveLogView;
      hide ClusteredServiceAgent.SnapshotView, ClusteredServiceAgent.Valid;
      image := Some(image.value.(consumed := image.value.consumed + 1));
    }

    /** The next frame of the image to the handler; it is consumed unless the handler aborts or throws. */
    method PollOne(agent: ClusteredServiceAgent, accepts: nat)
      returns (action: Action, left: nat, thrown: Option<Failure>)
      requires agent.Valid() && agent.adapter == this && image.Some? && image.value.consumed < |image.value.frames|
      modifies agent`logPosition, agent`clusterTime, agent`leadershipTermId, agent`sessionByIdMap, agent`sessions
      modifies agent`currentSnapshot, agent.journal, builder, `image
      ensures agent.Valid() && fresh(agent.Frame() - old(agent.Frame())) && image.Some?
      ensures old(agent.View(None)).image == old(image) && agent.View(None).image == image
      ensures (agent.View(thrown), action, left) == OneMore(old(agent.View(None)), accepts)
      ensures action != THROWN ==> thrown == None
    {
      hide ClusteredServiceAgent.View, ClusteredServiceAgent.Valid, AgentSpec.OnFragment, Offered,
           ClusteredServiceAgent.Frame;
      agent.ViewFields();
      var f := image.value.frames[image.value.consumed];
      FragmentOutcome(agent.View(None), f, accepts);
      var offers := Offered(builder.Built(), f).Some?;
      action, thrown := OnFragment(agent, f, accepts > 0);
      agent.ViewFailing(thrown);
      left := accepts;
      if action != ABORT && action != THROWN {
        Advance(agent);
        left := if offers && accepts > 0 then accepts - 1 else accepts;
      }
      agent.ViewFields();
    }

    /** `boundedControlledPoll` of the image, whatever the handler accepts. */
    method Poll(agent: ClusteredServiceAgent, limit: int, available: nat, accepts: nat)
      returns (polled: nat, thrown: Option<Failure>)
      requires agent.Valid() && agent.adapter == this && image.Some?
      modifies agent`logPosition, agent`clusterTime, agent`leadershipTermId, agent`sessionByIdMap, agent`sessions
      modifies agent`currentSnapshot, agent.journal, builder, `image
      ensures agent.Valid() && fresh(agent.Frame() - old(agent.Frame()))
      ensures old(agent.View(None)).image.Some?
      ensures (agent.View(thrown), polled) == AgentSpec.Poll(old(agent.View(None)), limit, available, fragmentLimit,
                                                             accepts)
    {
      hide ClusteredServiceAgent.View, ClusteredServiceAgent.Valid, OneMore, PollsTo, AgentSpec.Poll;
      ghost var before := agent.View(None);
      polled := 0;
      var left := accepts;
      agent.ViewFields();
      PollingStarts(before, limit, available, fragmentLimit, accepts);
      while && polled < fragmentLimit
            && image.value.consumed < available && image.value.consumed < |image.value.frames|
            && Position(image.value) < limit
        invariant agent.Valid() && fresh(agent.Frame() - old(agent.Frame()))
        invariant polled <= fragmentLimit
        invariant image.Some? && agent.View(None).image == image
        invariant PollsTo(before, agent.View(None), limit, available, fragmentLimit, accepts, polled, left)
        decreases fragmentLimit - polled
      {
        FragmentPolled(before, agent.View(None), limit, available, fragmentLimit, accepts, polled, left);
        var action;
        action, left, thrown := PollOne(agent, left);
        if action == ABORT || action == THROWN {
          return;
        }
        polled := polled + 1;
      }
      thrown := None;
      PollingEnds(before, agent.View(None), limit, available, fragmentLimit, accepts, polled, left);
    }
  }

  class SnapshotState {
    const publication: SnapshotPublication
    var published: bool
    var recordingId: Option<int>
    var complete: bool

    constructor ()
      ensures View() == NEW_SNAPSHOT && fresh(publication)
    {
      publication := new SnapshotPublication();
      published, recordingId, complete := false, None, false;
    }

    ghost function View(): Snapshot
      reads this, publication
    {
      Snapshot(published, recordingId, complete, publication.messages)
    }

    /** The agent's state as it is at this moment goes into the publication. */
    method WriteState(agent: ClusteredServiceAgent, c: SnapshotCycle) returns (thrown: Option<Failure>)
      requires agent.Valid() && agent.currentSnapshot == this && recordingId.None? && c.recordingId.Some?
      modifies this, publication
      ensures agent.Valid() && recordingId == c.recordingId
      ensures var (snapshot, failure) := AgentSpec.WriteState(old(agent.View(None)), old(View()), c);
              && agent.View(None) == old(agent.View(None)).(snapshot := Some(snapshot))
              && thrown == failure && View() == snapshot
    {
      hide ClusteredServiceAgent.View, ClusteredServiceAgent.Valid;
      agent.ViewState();
      recordingId := c.recordingId;
      var ending := agent.WriteSnapshotState(publication, c.offers);
      agent.OnlySnapshotMoved();
      match ending
      case ALL_OFFERED => thrown := None;
      case OFFER_REFUSED(result) => thrown := Some(PublicationState(result));
      case OFFERING => thrown := Some(StillOffering);
    }

    /** The service is asked until its part is complete. */
    method AskService(agent: ClusteredServiceAgent, c: SnapshotCycle)
      requires agent.Valid() && agent.currentSnapshot == this
      modifies this, publication, agent.journal
      ensures agent.Valid() && recordingId == old(recordingId)
      ensures old(agent.View(None)).snapshot.Some? && agent.View(None) == AgentSpec.AskService(old(agent.View(None)), c)
      ensures agent.View(None).snapshot == Some(View())
    {
      hide ClusteredServiceAgent.View, ClusteredServiceAgent.Valid;
      agent.ViewFields();
      if !complete {
        publication.messages := publication.messages + c.serviceWrites;
        complete := c.serviceDone;
        agent.OnlySnapshotMoved();
        agent.Call(OnTakeSnapshot);
      }
      agent.ViewFields();
    }

    /** `SnapshotState::doWork`: true when the snapshot is recorded and acknowledged. */
    method DoWork(agent: ClusteredServiceAgent, c: SnapshotCycle) returns (done: bool, thrown: Option<Failure>)
      requires agent.Valid() && agent.currentSnapshot == this
      modifies this, publication, agent.journal, agent`ackId, agent`requestedAckPosition
      ensures agent.Valid() && (thrown.Some? ==> !done)
      ensures old(agent.View(None)).snapshot.Some?
      ensures (agent.View(thrown), done) == SnapshotWork(old(agent.View(None)), c)
    {
      hide ClusteredServiceAgent.View, ClusteredServiceAgent.Valid, AgentSpec.AskService, AgentSpec.WriteState, SendAck;
      agent.ViewFields();
      done, thrown := false, None;
      if !published {
        if !c.publicationFound {
          return;
        }
        published := true;
        agent.OnlySnapshotMoved();
        if c.archiveRefuses {
          thrown := Some(ArchiveRefused);
          agent.ViewFailing(thrown);
          return;
        }
      }
      if recordingId.None? {
        if c.recordingId.None? {
          if c.archiveRefuses {
            thrown := Some(ArchiveRefused);
            agent.ViewFailing(thrown);
          }
          return;
        }
        WriteStateOfRest(old(agent.View(None)), agent.View(None), View(), c);
        thrown := WriteState(agent, c);
        agent.ViewFailing(thrown);
        if thrown.Some? {
          return;
        }
      }
      AskService(agent, c);
      if !complete || !c.recorded {
        return;
      }
      done, thrown := agent.Ack(recordingId.value, c.ackClaims);
    }
  }
}
