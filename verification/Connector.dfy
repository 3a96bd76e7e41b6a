/** Bringing an agent up, as the objects that do it: the loader of its snapshot and `AsyncConnect`. */
module Connector {
  import opened Aeron
  import opened SessionTable
  import opened ReplicatedState
  import opened Publications
  import opened Snapshots
  import opened AgentSpec
  import opened AgentSteps
  import opened LoaderSteps
  import opened Counters
  import opened Startup
  import opened Container

  // ---- The loader ----

  class ServiceSnapshotLoader {
    const image: seq<SnapshotMessage>
    var cursor: nat
    var inSnapshot: bool
    var isDone: bool
    var appVersion: int
    ghost var failure: Option<Failure>

    constructor (image: seq<SnapshotMessage>)
      ensures cursor <= |this.image| && failure == None && !isDone
      ensures forall table :: View(table) == StartLoading(table, image)
    {
      this.image := image;
      cursor, inSnapshot, isDone, appVersion, failure := 0, false, false, 0, None;
    }

    ghost function View(table: Table): Loading
      reads this
      requires cursor <= |image|
    {
      Loading(inSnapshot, isDone, appVersion, table, image, cursor, failure)
    }

    lemma ViewParts(table: Table)
      requires cursor <= |image|
      ensures View(table).cursor == cursor && View(table).image == image && View(table).failure == failure
      ensures View(table).table == table && View(table).isDone == isDone
    {
    }

    /** `onFragment`: BEGIN, the sessions and END; a session goes to the agent at once. */
    method OnFragment(agent: ClusteredServiceAgent, m: SnapshotMessage)
      returns (action: Action, thrown: Option<Failure>)
      requires cursor <= |image| && agent.Valid() && failure.None?
      modifies this, agent`sessionByIdMap, agent`sessions, agent.journal
      ensures cursor <= |image| && agent.Valid() && failure == thrown
      ensures (View(agent.TableView()), action) == OnSnapshotFragment(old(View(agent.TableView())), m)
      ensures agent.View(None) == Restoring(old(agent.View(None)), agent.TableView(), SessionsIn([m]))
      ensures thrown.Some? <==> action == THROWN
      ensures action == THROWN ==>
                agent.View(None) == old(agent.View(None)) && agent.TableView() == old(agent.TableView())
      ensures agent.View(None).core.table == agent.TableView() && cursor == old(cursor)
      ensures fresh(agent.Frame() - old(agent.Frame()))
    {
      hide ClusteredServiceAgent.Frame;
      hide ClusteredServiceAgent.View, ClusteredServiceAgent.Valid, ClusteredServiceAgent.TableView, Restoring, Add,
           SessionsIn;
      agent.ViewTable(0);
      ReadOne(agent.View(None), m);
      action, thrown := CONTINUE, None;
      match m {
        case ForeignSchema =>
          action, thrown := THROWN, Some(UnexpectedSchema);
        case SnapshotMarker(typeId, _, _, _, mark, version) =>
          if typeId != SNAPSHOT_TYPE_ID {
            action, thrown := THROWN, Some(UnexpectedSnapshotType);
          } else if mark == BEGIN {
            if inSnapshot {
              action, thrown := THROWN, Some(AlreadyInSnapshot);
            } else {
              inSnapshot := true;
              appVersion := version;
            }
          } else if mark == END {
            if !inSnapshot {
              action, thrown := THROWN, Some(MissingBegin);
            } else {
              isDone := true;
              action := BREAK;
            }
          }
        case ClientSessionRecord(session) =>
          agent.RestoreSession(session.id, session.responseStreamId, session.responseChannel, session.encodedPrincipal);
        case ServiceData(_) =>
      }
      failure := thrown;
      agent.ViewTable(0);
    }

    /** One fragment of the image; a handler that throws leaves it unconsumed. */
    method PollOne(agent: ClusteredServiceAgent) returns (action: Action, thrown: Option<Failure>)
      requires cursor <= |image| && agent.Valid() && failure.None? && cursor < |image|
      modifies this, agent`sessionByIdMap, agent`sessions, agent.journal
      ensures cursor <= |image| && agent.Valid() && failure == thrown
      ensures (View(agent.TableView()), action) == Consume(old(View(agent.TableView())))
      ensures thrown.Some? <==> action == THROWN
      ensures cursor == if action == THROWN then old(cursor) else old(cursor) + 1
      ensures agent.View(None) == AgentAfter(old(agent.View(None)), old(View(agent.TableView())))
      ensures fresh(agent.Frame() - old(agent.Frame()))
    {
      hide ClusteredServiceAgent.Frame;
      hide ClusteredServiceAgent.View, ClusteredServiceAgent.Valid, ClusteredServiceAgent.TableView, Restoring,
           OnSnapshotFragment;
      action, thrown := OnFragment(agent, image[cursor]);
      if action != THROWN {
        cursor := cursor + 1;
      }
    }

    /** `controlledPoll` of the image. */
    method Poll(agent: ClusteredServiceAgent, available: nat) returns (polled: nat, thrown: Option<Failure>)
      requires cursor <= |image| && agent.Valid() && failure.None?
      modifies this, agent`sessionByIdMap, agent`sessions, agent.journal
      ensures cursor <= |image| && agent.Valid() && failure == thrown
      ensures LoadPolled(old(View(agent.TableView())), old(agent.View(None)),
                         View(agent.TableView()), agent.View(None), available, polled)
      ensures fresh(agent.Frame() - old(agent.Frame()))
    {
      hide ClusteredServiceAgent.Frame;
      hide ClusteredServiceAgent.View, ClusteredServiceAgent.Valid, ClusteredServiceAgent.TableView;
      hide View, Consume, Restoring, LoadUnderway, LoadPolled;
      ghost var before, agentBefore := View(agent.TableView()), agent.View(None);
      agent.ViewTable(0);
      ViewParts(agent.TableView());
      polled, thrown := 0, None;
      LoadPollStarts(before, agentBefore, available);
      while polled < FRAGMENT_LIMIT && cursor < available && cursor < |image|
        invariant cursor <= |image| && agent.Valid() && fresh(agent.Frame() - old(agent.Frame()))
        invariant failure == thrown == None && polled <= FRAGMENT_LIMIT
        invariant LoadUnderway(before, agentBefore, View(agent.TableView()), agent.View(None), available, polled)
        decreases FRAGMENT_LIMIT - polled
      {
        ViewParts(agent.TableView());
        PollsOneMore(before, agentBefore, View(agent.TableView()), agent.View(None), available, polled);
        ghost var frame := agent.Frame();
        var action;
        action, thrown := PollOne(agent);
        forall o: object | o in agent.Frame() && o !in old(agent.Frame()) ensures !old(allocated(o)) {
          assert if o in frame then o in frame - old(agent.Frame()) else o in agent.Frame() - frame;
        }
        if action == THROWN {
          return;
        }
        polled := polled + 1;
        if action == BREAK {
          return;
        }
      }
      ViewParts(agent.TableView());
      LoadPollEnds(before, agentBefore, View(agent.TableView()), agent.View(None), available, polled);
    }
  }

  // ---- AsyncConnect ----

  class AsyncConnect {
    const agent: ClusteredServiceAgent
    const clientId: int
    const clusterId: int
    var step: nat
    var publicationFound: bool
    var subscriptionFound: bool
    var archiveFound: bool
    var commitPositionFound: bool
    var recoveryCounterId: int
    var replayFound: bool
    var loader: ServiceSnapshotLoader?
    ghost var returned: nat

    constructor (agent: ClusteredServiceAgent, clientId: int, clusterId: int)
      requires agent.Valid() && agent.View(None).core.table == NO_SESSIONS
      ensures Valid() && this.agent == agent
      ensures View(None) == Connecting(agent.View(None), clientId, clusterId, 0, false, false, false,
                                       false, NULL_COUNTER_ID, false, None, 0)
    {
      this.agent, this.clientId, this.clusterId := agent, clientId, clusterId;
      step, publicationFound, subscriptionFound, archiveFound, commitPositionFound := 0, false, false, false, false;
      recoveryCounterId, replayFound, loader, returned := NULL_COUNTER_ID, false, null, 0;
    }

    ghost predicate Valid()
      reads `loader, loader, agent
    {
      agent.Valid() && (loader != null ==> loader.cursor <= |loader.image|)
    }

    ghost function LoaderView(): Option<Loading>
      requires Valid()
      reads `loader, loader, agent
    {
      if loader == null then None else Some(loader.View(agent.TableView()))
    }

    ghost function View(failure: Option<Failure>): Connecting
      requires Valid()
      reads this, loader, agent, agent.journal, agent.adapter, agent.adapter.builder, agent.sessionByIdMap.Values
      reads agent.activeLogEvent, agent.currentSnapshot
      reads if agent.currentSnapshot == null then {} else {agent.currentSnapshot.publication}
    {
      Connecting(agent.View(failure), clientId, clusterId, step, publicationFound, subscriptionFound, archiveFound,
                 commitPositionFound, recoveryCounterId, replayFound, LoaderView(), returned)
    }

    lemma ViewParts()
      requires Valid()
      ensures View(None).agent == agent.View(None) && View(None).step == step && View(None).loader == LoaderView()
      ensures View(None).recoveryCounterId == recoveryCounterId && View(None).replayFound == replayFound
      ensures View(None).clientId == clientId && View(None).clusterId == clusterId && View(None).returned == returned
      ensures View(None).agent.failure == None && View(None).agent.config == agent.config
      ensures View(None).loader.Some? <==> loader != null
      ensures loader != null ==> View(None).loader.value.isDone == loader.isDone
      ensures AllResolved(View(None)) <==>
              && publicationFound && subscriptionFound && archiveFound && commitPositionFound
              && recoveryCounterId != NULL_COUNTER_ID
    {
      hide ClusteredServiceAgent.TableView;
    }

    lemma ViewFailing(failure: Option<Failure>)
      requires Valid()
      ensures View(failure) == View(None).(agent := View(None).agent.(failure := failure))
              && View(None).agent.failure == None
    {
      hide ClusteredServiceAgent.View, LoaderView;
      agent.ViewFailing(failure);
      agent.ViewFailing(None);
    }

    twostate lemma OnlyAgentMoved()
      requires old(Valid()) && Valid() && unchanged(this) && agent.TableView() == old(agent.TableView())
      requires loader != null ==> old(allocated(loader)) && unchanged(loader)
      ensures View(None) == old(View(None)).(agent := agent.View(None))
    {
      hide ClusteredServiceAgent.View, ClusteredServiceAgent.TableView;
    }

    twostate lemma OnlyLoaderMoved()
      requires old(Valid()) && Valid() && unchanged(this)
      ensures View(None) == old(View(None)).(agent := agent.View(None), loader := LoaderView())
    {
      hide ClusteredServiceAgent.View, ClusteredServiceAgent.TableView, LoaderView;
    }

    lemma LoaderParts()
      requires Valid() && loader != null
      ensures LoaderView() == Some(loader.View(agent.TableView()))
    {
      hide ServiceSnapshotLoader.View, ClusteredServiceAgent.TableView;
    }

    method FindPublication(found: bool)
      requires Valid()
      modifies `publicationFound
      ensures Valid() && View(None) == old(View(None)).(publicationFound := old(View(None)).publicationFound || found)
    {
      hide ClusteredServiceAgent.View, LoaderView, Valid;
      publicationFound := publicationFound || found;
    }

    method FindSubscription(found: bool)
      requires Valid()
      modifies `subscriptionFound
      ensures Valid() && View(None) == old(View(None)).(subscriptionFound := old(View(None)).subscriptionFound || found)
    {
      hide ClusteredServiceAgent.View, LoaderView, Valid;
      subscriptionFound := subscriptionFound || found;
    }

    method FindArchive(found: bool)
      requires Valid()
      modifies `archiveFound
      ensures Valid() && View(None) == old(View(None)).(archiveFound := old(View(None)).archiveFound || found)
    {
      hide ClusteredServiceAgent.View, LoaderView, Valid;
      archiveFound := archiveFound || found;
    }

    method FindCommitPosition(counters: CountersReader)
      requires Valid()
      modifies `commitPositionFound
      ensures Valid()
      ensures var id := Search(counters, Wanted(COMMIT_POSITION_TYPE_ID, CLUSTER_KEY_OFFSET, clusterId), 0);
              var before := old(View(None));
              View(None) == before.(commitPositionFound := before.commitPositionFound || id != NULL_COUNTER_ID)
    {
      hide ClusteredServiceAgent.View, LoaderView, Valid, Search, IsFound;
      if !commitPositionFound {
        var counterId := FindClusterCounter(counters, COMMIT_POSITION_TYPE_ID, clusterId);
        commitPositionFound := counterId != NULL_COUNTER_ID;
      }
    }

    method FindRecovery(counters: CountersReader)
      requires Valid()
      modifies `recoveryCounterId
      ensures Valid()
      ensures var id := Search(counters, WantedRecovery(clusterId), 0);
              var before := old(View(None));
              View(None) ==
              if before.recoveryCounterId == NULL_COUNTER_ID then before.(recoveryCounterId := id) else before
    {
      hide ClusteredServiceAgent.View, LoaderView, Valid, Search, IsFound;
      if recoveryCounterId == NULL_COUNTER_ID {
        recoveryCounterId := FindRecoveryCounter(counters, clusterId);
      }
    }

    /** Looks for whatever has not been found yet. */
    method FindParts(m: Meeting)
      requires Valid()
      modifies `publicationFound, `subscriptionFound, `archiveFound, `commitPositionFound, `recoveryCounterId
      ensures Valid() && View(None) == Resolve(old(View(None)), m)
    {
      hide View, Valid, Search;
      ViewParts();
      FindPublication(m.publicationFound);
      FindSubscription(m.subscriptionFound);
      FindArchive(m.archiveFound);
      FindCommitPosition(m.counters);
      FindRecovery(m.counters);
    }

    method SetStep(next: nat)
      requires Valid()
      modifies `step
      ensures Valid() && View(None) == old(View(None)).(step := next) && step == next
      ensures agent.Frame() == old(agent.Frame())
    {
      hide ClusteredServiceAgent.Frame;
      hide ClusteredServiceAgent.View, ClusteredServiceAgent.TableView, ClusteredServiceAgent.Valid, LoaderView, Valid;
      step := next;
    }

    method Recover(c: CountersReader)
      requires Valid()
      modifies agent`logPosition, agent`clusterTime, agent`leadershipTermId
      ensures Valid() && View(None) == Recovered(old(View(None)), c)
    {
      hide View, ClusteredServiceAgent.View, ClusteredServiceAgent.TableView, ClusteredServiceAgent.Valid;
      hide GetLogPosition, GetTimestamp, GetLeadershipTermId;
      ViewParts();
      agent.Recover(GetLogPosition(c, recoveryCounterId), GetTimestamp(c, recoveryCounterId),
                    GetLeadershipTermId(c, recoveryCounterId));
      OnlyAgentMoved();
    }

    /** Step 1. */
    method TakeRecoveryState(m: Meeting) returns (thrown: Option<Failure>)
      requires Valid()
      modifies `step, agent`logPosition, agent`clusterTime, agent`leadershipTermId
      ensures Valid() && View(thrown) == Startup.TakeRecoveryState(old(View(None)), m)
    {
      hide View, ClusteredServiceAgent.View, ClusteredServiceAgent.TableView, ClusteredServiceAgent.Valid;
      hide GetLogPosition, GetTimestamp, GetLeadershipTermId, GetSnapshotRecordingId, Startup.TakeRecoveryState,
           Recovered;
      ViewParts();
      TakenInParts(View(None), m);
      var id := recoveryCounterId;
      var termId := GetLeadershipTermId(m.counters, id);
      Recover(m.counters);
      thrown := None;
      if termId == NULL_VALUE {
        SetStep(3);
      } else {
        match GetSnapshotRecordingId(m.counters, id, agent.config.serviceId)
        case RecordingId(_) =>
          if m.archiveRefuses {
            thrown := Some(ArchiveRefused);
          } else {
            SetStep(2);
          }
        case InvalidServiceId => thrown := Some(InvalidRecoveryService);
        case NoActiveCounter => thrown := Some(NoRecoveryCounter);
      }
      ViewFailing(thrown);
    }

    /** Step 3. */
    method StartService(m: Meeting)
      requires Valid()
      modifies `step, agent.journal
      ensures Valid() && View(None) == Startup.StartService(old(View(None)), m)
    {
      hide View, ClusteredServiceAgent.View, ClusteredServiceAgent.TableView, ClusteredServiceAgent.Valid;
      ViewParts();
      agent.Call(OnStart(loader != null));
      OnlyAgentMoved();
      if m.started {
        SetStep(4);
      }
    }

    /** Step 4: true when the agent is active. */
    method AckStart(m: Meeting) returns (active: bool, thrown: Option<Failure>)
      requires Valid()
      modifies `returned, agent`ackId, agent`requestedAckPosition, agent.journal
      ensures Valid() && View(thrown) == Startup.AckStart(old(View(None)), m)
      ensures returned == if active then old(returned) + 1 else old(returned)
    {
      hide View, ClusteredServiceAgent.View, ClusteredServiceAgent.TableView, ClusteredServiceAgent.Valid, SendAck;
      ViewParts();
      active, thrown := agent.Ack(clientId, m.ackClaims);
      OnlyAgentMoved();
      ViewParts();
      agent.ViewFailing(thrown);
      if active {
        CountReturn();
      }
      ViewFailing(thrown);
    }

    ghost method CountReturn()
      requires Valid()
      modifies `returned
      ensures Valid() && View(None) == old(View(None)).(returned := old(returned) + 1) && returned == old(returned) + 1
    {
      hide ClusteredServiceAgent.View, ClusteredServiceAgent.TableView, ClusteredServiceAgent.Valid, LoaderView, Valid;
      returned := returned + 1;
    }

    method FindReplay()
      requires Valid()
      modifies `replayFound
      ensures Valid() && View(None) == old(View(None)).(replayFound := true)
    {
      hide ClusteredServiceAgent.View, LoaderView, Valid;
      replayFound := true;
    }

    method MakeLoader(image: seq<SnapshotMessage>)
      requires Valid()
      modifies `loader
      ensures Valid() && fresh(loader) && loader.failure.None?
      ensures View(None) == old(View(None)).(loader := Some(StartLoading(agent.TableView(), image)))
    {
      hide ClusteredServiceAgent.View, ClusteredServiceAgent.Valid, ClusteredServiceAgent.TableView;
      loader := new ServiceSnapshotLoader(image);
    }

    /** One poll of the loader. */
    method PollLoader(m: Meeting) returns (thrown: Option<Failure>)
      requires Valid() && loader != null && loader.failure.None?
      modifies loader, agent`sessionByIdMap, agent`sessions, agent.journal
      ensures Valid() && (thrown.None? ==> loader.failure.None?)
      ensures old(LoaderView()).Some?
      ensures View(thrown) == Startup.PollLoader(old(View(None)), old(LoaderView()).value, m)
      ensures fresh(agent.Frame() - old(agent.Frame()))
    {
      hide ClusteredServiceAgent.Frame;
      hide View, LoaderView, ClusteredServiceAgent.View, ClusteredServiceAgent.TableView, ClusteredServiceAgent.Valid;
      hide ServiceSnapshotLoader.View, LoadPolled, Startup.PollLoader;
      LoaderParts();
      ghost var before, agentBefore := loader.View(agent.TableView()), agent.View(None);
      ghost var start := View(None);
      ViewParts();
      var polled;
      polled, thrown := loader.Poll(agent, if m.imageClosed then 0 else m.available);
      loader.ViewParts(agent.TableView());
      LoaderParts();
      OnlyLoaderMoved();
      if thrown.None? && polled == 0 {
        if m.archiveRefuses {
          thrown := Some(ArchiveRefused);
        } else if m.imageClosed {
          thrown := Some(SnapshotEnded);
        }
      }
      ViewFailing(thrown);
      LoaderPolls(start, before, m, loader.View(agent.TableView()), agent.View(None), polled);
    }

    /** The replay's subscription, then its image and a loader for it; true when there is a loader. */
    method FindLoader(m: Meeting) returns (ready: bool)
      requires Valid() && (loader != null ==> loader.failure.None?)
      modifies `replayFound, `loader
      ensures Valid() && (loader != null ==> loader.failure.None?) && (loader == old(loader) || fresh(loader))
      ensures ready <==>
              && (old(View(None)).replayFound || m.replayFound)
              && (old(View(None)).loader.Some? || m.snapshotImage.Some?)
      ensures ready ==> loader != null && View(None) ==
                                          old(View(None)).(replayFound := true,
                                                           loader := Some(LoaderOf(old(View(None)), m)))
      ensures !ready ==> View(None) == old(View(None)).(replayFound := old(View(None)).replayFound || m.replayFound)
      ensures agent.Frame() == old(agent.Frame())
    {
      hide ClusteredServiceAgent.Frame;
      hide View, ClusteredServiceAgent.View, ClusteredServiceAgent.TableView, ClusteredServiceAgent.Valid, LoaderView,
           Valid;
      ViewParts();
      agent.ViewTable(0);
      if !replayFound {
        if !m.replayFound {
          return false;
        }
        FindReplay();
      }
      if loader == null {
        if m.snapshotImage.None? {
          return false;
        }
        MakeLoader(m.snapshotImage.value);
      }
      ready := true;
    }

    /** On to the service behind END, or one more poll of the loader. */
    method LoadOn(m: Meeting) returns (thrown: Option<Failure>)
      requires Valid() && loader != null && loader.failure.None?
      modifies `step, loader, agent`sessionByIdMap, agent`sessions, agent.journal
      ensures Valid() && (thrown.None? ==> loader.failure.None?)
      ensures old(View(None)).loader.Some?
      ensures var l := old(View(None)).loader.value;
              View(thrown) ==
              if l.isDone then old(View(None)).(step := 3) else Startup.PollLoader(old(View(None)), l, m)
      ensures fresh(agent.Frame() - old(agent.Frame()))
    {
      hide ClusteredServiceAgent.Frame;
      hide View, ClusteredServiceAgent.View, ClusteredServiceAgent.TableView, ClusteredServiceAgent.Valid, LoaderView,
           Valid;
      hide Startup.PollLoader;
      ViewParts();
      thrown := None;
      if loader.isDone {
        SetStep(3);
      } else {
        thrown := PollLoader(m);
      }
    }

    /** Step 2. */
    method ReplaySnapshot(m: Meeting) returns (thrown: Option<Failure>)
      requires Valid() && (loader != null ==> loader.failure.None?)
      modifies `step, `replayFound, `loader, loader, agent`sessionByIdMap, agent`sessions, agent.journal
      ensures Valid() && (thrown.None? && loader != null ==> loader.failure.None?)
      ensures View(thrown) == Startup.ReplaySnapshot(old(View(None)), m)
      ensures (loader == old(loader) || fresh(loader)) && fresh(agent.Frame() - old(agent.Frame()))
    {
      hide ClusteredServiceAgent.Frame;
      hide View, ClusteredServiceAgent.View, ClusteredServiceAgent.TableView, ClusteredServiceAgent.Valid, LoaderView,
           Valid;
      hide Startup.PollLoader, Startup.ReplaySnapshot, LoaderOf;
      ReplayedInParts(View(None), m);
      thrown := None;
      var ready := FindLoader(m);
      if ready {
        ghost var frame := agent.Frame();
        thrown := LoadOn(m);
        forall o: object | o in agent.Frame() && o !in old(agent.Frame()) ensures !old(allocated(o)) {
          assert o in agent.Frame() - frame;
        }
      }
    }

    /** `poll`: the agent, once it is active. */
    method Poll(m: Meeting) returns (connected: ClusteredServiceAgent?, thrown: Option<Failure>)
      requires Valid() && (loader != null ==> loader.failure.None?)
      modifies this, loader, agent, agent.journal
      ensures Valid() && (thrown.None? && loader != null ==> loader.failure.None?)
      ensures View(thrown) == ConnectPoll(old(View(None)), m)
      ensures connected == (if returned > old(returned) then agent else null) && old(returned) <= returned
      ensures (loader == old(loader) || fresh(loader)) && fresh(agent.Frame() - old(agent.Frame()))
    {
      hide ClusteredServiceAgent.Frame;
      hide View, Valid, Resolve, AllResolved;
      hide Startup.TakeRecoveryState, Startup.ReplaySnapshot, Startup.StartService, Startup.AckStart;
      connected, thrown := null, None;
      ViewParts();
      FindParts(m);
      assert agent.Frame() - old(agent.Frame()) == {};
      ViewParts();
      if && step == 0 && publicationFound && subscriptionFound && commitPositionFound
         && recoveryCounterId != NULL_COUNTER_ID && archiveFound {
        if !m.isConnected {
          return;
        }
        SetStep(1);
      }
      assert agent.Frame() - old(agent.Frame()) == {};
      if step == 1 {
        thrown := TakeRecoveryState(m);
        assert agent.Frame() - old(agent.Frame()) == {};
      } else if step == 2 {
        ghost var frame := agent.Frame();
        thrown := ReplaySnapshot(m);
        forall o: object | o in agent.Frame() && o !in old(agent.Frame()) ensures !old(allocated(o)) {
          assert o in agent.Frame() - frame;
        }
      } else if step == 3 {
        StartService(m);
        assert agent.Frame() - old(agent.Frame()) == {};
      } else if step == 4 {
        var active;
        active, thrown := AckStart(m);
        assert agent.Frame() - old(agent.Frame()) == {};
        if active {
          connected := agent;
        }
      }
    }
  }
}
