/** The objects driven over whole startups and runs. */
module Driver {
  import opened Aeron
  import opened ReplicatedState
  import opened SessionTable
  import opened Publications
  import opened AgentSpec
  import opened Journals
  import opened AckNumbers
  import opened Invariants
  import opened SnapshotFreeze
  import opened Snapshots
  import opened Startup
  import opened StartupProofs
  import opened Recovery
  import opened Container
  import opened Connector

  // ---- Runs ----

  lemma ClosesAlike(s: AgentState, id: int, inLifecycleCallback: bool, results: seq<int>, failure: Option<Failure>)
    ensures AgentSpec.CloseClientSession(s.(failure := failure), id, inLifecycleCallback, results).0 ==
            AgentSpec.CloseClientSession(s, id, inLifecycleCallback, results).0.(failure := failure)
  {
    hide TryClaim;
  }

  /** The run over the first `n` inputs. */
  ghost function RunOf(s: AgentState, inputs: seq<Input>, n: nat): AgentState
    requires n <= |inputs|
  {
    Run(s, inputs[..n])
  }

  lemma OneMoreInput(s: AgentState, inputs: seq<Input>, n: nat)
    requires n < |inputs|
    ensures RunOf(s, inputs, n + 1) == Step(RunOf(s, inputs, n), inputs[n])
  {
    hide Step;
    assert inputs[..n + 1][..n] == inputs[..n];
  }

  lemma NoInput(s: AgentState, inputs: seq<Input>)
    ensures RunOf(s, inputs, 0) == s && RunOf(s, inputs, |inputs|) == Run(s, inputs)
  {
    assert inputs[..0] == [] && inputs[..|inputs|] == inputs;
  }

  /** Duty cycles and requests of the service, in any order, until an exception and the requests behind
      it: the objects go through the very run of the state machine. So they keep what every run keeps. */
  method Drive(agent: ClusteredServiceAgent, inputs: seq<Input>) returns (thrown: Option<Failure>)
    requires agent.Valid()
    modifies agent.Frame()
    ensures agent.Valid()
    ensures agent.View(thrown) == Run(old(agent.View(None)), inputs)
    ensures old(Inv(agent.View(None))) ==> Inv(agent.View(thrown)) && agent.Indexed()
    ensures old(Numbered(agent.View(None))) ==> Numbered(agent.View(thrown))
    ensures old(SnapshotHolds(agent.View(None), [])) ==>
            SnapshotHolds(agent.View(thrown), OwnWrites(old(agent.View(None)), inputs))
  {
    hide Inv, Numbered, SnapshotHolds, Run, RunOf, Step, OwnWrites, ClusteredServiceAgent.View,
         ClusteredServiceAgent.Indexed;
    ghost var before := agent.View(None);
    thrown := None;
    var i := 0;
    NoInput(before, inputs);
    while i < |inputs|
      invariant i <= |inputs| && agent.Valid() && fresh(agent.Frame() - old(agent.Frame()))
      invariant agent.View(thrown) == RunOf(before, inputs, i)
    {
      OneMoreInput(before, inputs, i);
      thrown := DriveOne(agent, inputs[i], thrown);
      i := i + 1;
    }
    Kept(before, inputs);
    IndexedIfKept(agent, thrown);
  }

  lemma IndexedIfKept(agent: ClusteredServiceAgent, thrown: Option<Failure>)
    requires agent.Valid()
    ensures Inv(agent.View(thrown)) ==> agent.Indexed()
  {
    hide ClusteredServiceAgent.TableView, ClusteredServiceAgent.Indexed, AcksCounted, SessionsShaped, ClosedOnce,
         TicksApart, Agrees;
    if Inv(agent.View(thrown)) {
      agent.AgreedIsIndexed();
    }
  }

  lemma Kept(s: AgentState, inputs: seq<Input>)
    ensures Inv(s) ==> Inv(Run(s, inputs))
    ensures Numbered(s) ==> Numbered(Run(s, inputs))
    ensures SnapshotHolds(s, []) ==> SnapshotHolds(Run(s, inputs), OwnWrites(s, inputs))
  {
    hide Inv, AcksCounted, TicksApart, SnapshotHolds, OwnWrites, Run;
    if Inv(s) {
      RunKeeps(s, inputs);
    }
    if Numbered(s) {
      RunNumbers(s, inputs);
    }
    if SnapshotHolds(s, []) {
      RunKeepsSnapshot(s, inputs);
    }
  }

  /** One input; behind an exception no duty cycle is run. */
  method DriveOne(agent: ClusteredServiceAgent, i: Input, before: Option<Failure>) returns (thrown: Option<Failure>)
    requires agent.Valid()
    modifies agent.Frame()
    ensures agent.Valid() && fresh(agent.Frame() - old(agent.Frame()))
    ensures agent.View(thrown) == Step(old(agent.View(before)), i)
  {
    hide ClusteredServiceAgent.View, AgentSpec.DoWork, AgentSpec.CloseClientSession;
    agent.ViewFailing(before);
    thrown := before;
    match i {
      case Duty(c) =>
        FailedDuty(agent.View(before), c);
        if before.None? {
          thrown := agent.DoWork(c);
        }
      case Close(id, inLifecycleCallback, results) =>
        ClosesAlike(agent.View(None), id, inLifecycleCallback, results, before);
        var answer := agent.CloseAskedBy(id, inLifecycleCallback, results);
        agent.ViewFailing(before);
    }
  }

  lemma FailedDuty(s: AgentState, c: Cycle)
    ensures s.failure.Some? ==> AgentSpec.DoWork(s, c) == s
  {
  }

  // ---- Startups ----

  /** The startup over the first `n` attempts. */
  ghost function ConnectOf(s: Connecting, attempts: seq<Attempt>, n: nat): Connecting
    requires n <= |attempts|
  {
    Connect(s, attempts[..n])
  }

  lemma OneMoreAttempt(s: Connecting, attempts: seq<Attempt>, n: nat)
    requires n < |attempts|
    ensures ConnectOf(s, attempts, n + 1) == ConnectStep(ConnectOf(s, attempts, n), attempts[n])
  {
    hide ConnectStep;
    assert attempts[..n + 1][..n] == attempts[..n];
  }

  lemma NoAttempt(s: Connecting, attempts: seq<Attempt>)
    ensures ConnectOf(s, attempts, 0) == s && ConnectOf(s, attempts, |attempts|) == Connect(s, attempts)
  {
    assert attempts[..0] == [] && attempts[..|attempts|] == attempts;
  }

  /** Polls, and requests of the service while it is being started, in any order, until an exception: the
      objects go through the very startup of the state machine. So what is proved of startups holds of
      them; and vector and map hold the same objects in the end if and only if no session id was repeated
      in the snapshot. */
  method DriveStartup(connect: AsyncConnect, attempts: seq<Attempt>)
    returns (connected: ClusteredServiceAgent?, thrown: Option<Failure>)
    requires connect.Valid() && (connect.loader != null ==> connect.loader.failure.None?)
    modifies connect, connect.loader, connect.agent.Frame()
    ensures connect.Valid()
    ensures connect.View(thrown) == Connect(old(connect.View(None)), attempts)
    ensures connected == if connect.returned > old(connect.returned) then connect.agent else null
    ensures old(IsNew(connect.View(None))) ==>
              && (Inv(connect.View(thrown).agent) <==> AllNew(NO_SESSIONS, ReadSessions(connect.View(thrown))))
              && (AllNew(NO_SESSIONS, ReadSessions(connect.View(thrown))) ==> connect.agent.Indexed())
  {
    hide *;
    ghost var before := connect.View(None);
    connected, thrown := null, None;
    var i := 0;
    NoAttempt(before, attempts);
    while i < |attempts|
      invariant i <= |attempts| && connect.Valid()
      invariant connect.loader == old(connect.loader) || fresh(connect.loader)
      invariant fresh(connect.agent.Frame() - old(connect.agent.Frame()))
      invariant thrown.None? && connect.loader != null ==> connect.loader.failure.None?
      invariant connect.View(thrown) == ConnectOf(before, attempts, i)
      invariant connected == if connect.returned > old(connect.returned) then connect.agent else null
      invariant connect.returned >= old(connect.returned)
    {
      OneMoreAttempt(before, attempts, i);
      ghost var frame := connect.agent.Frame();
      var active;
      active, thrown := DriveAttempt(connect, attempts[i], thrown);
      forall o: object | o in connect.agent.Frame() && o !in old(connect.agent.Frame()) ensures !old(allocated(o)) {
        assert if o in frame then o in frame - old(connect.agent.Frame()) else o in connect.agent.Frame() - frame;
      }
      if active != null {
        connected := active;
      }
      i := i + 1;
    }
    if IsNew(before) {
      SoundIffDistinct(before, attempts);
      StartupIndexed(connect, thrown);
    }
  }

  lemma StartupIndexed(connect: AsyncConnect, thrown: Option<Failure>)
    requires connect.Valid()
    ensures Inv(connect.View(thrown).agent) ==> connect.agent.Indexed()
  {
    hide Inv, ClusteredServiceAgent.Indexed, ClusteredServiceAgent.View, AsyncConnect.LoaderView;
    IndexedIfKept(connect.agent, thrown);
  }

  /** One attempt; behind an exception nothing is done. */
  method DriveAttempt(connect: AsyncConnect, a: Attempt, before: Option<Failure>)
    returns (connected: ClusteredServiceAgent?, thrown: Option<Failure>)
    requires connect.Valid() && (before.None? && connect.loader != null ==> connect.loader.failure.None?)
    modifies connect, connect.loader, connect.agent.Frame()
    ensures connect.Valid() && (thrown.None? && connect.loader != null ==> connect.loader.failure.None?)
    ensures connect.View(thrown) == ConnectStep(old(connect.View(before)), a)
    ensures connect.returned >= old(connect.returned)
    ensures connected == if connect.returned > old(connect.returned) then connect.agent else null
    ensures connect.loader == old(connect.loader) || fresh(connect.loader)
    ensures fresh(connect.agent.Frame() - old(connect.agent.Frame()))
  {
    hide AsyncConnect.View, AsyncConnect.Valid, ConnectPoll, AgentSpec.CloseClientSession;
    connect.ViewFailing(before);
    connect.ViewParts();
    connected, thrown := null, before;
    match a {
      case Polled(m) =>
        FailedPoll(connect.View(before), m);
        if before.None? {
          connected, thrown := connect.Poll(m);
        }
      case CloseAsked(id, inLifecycleCallback, results) =>
        if connect.step == 3 && before.None? {
          CloseAskedOf(connect, id, inLifecycleCallback, results);
        }
    }
  }

  method CloseAskedOf(connect: AsyncConnect, id: int, inLifecycleCallback: bool, results: seq<int>)
    requires connect.Valid()
    modifies connect.agent.Frame()
    ensures connect.Valid() && unchanged(connect) && (connect.loader != null ==> unchanged(connect.loader))
    ensures var s := old(connect.View(None));
            connect.View(None) ==
            s.(agent := AgentSpec.CloseClientSession(s.agent, id, inLifecycleCallback, results).0)
    ensures connect.agent.Frame() == old(connect.agent.Frame())
  {
    hide AsyncConnect.View, ClusteredServiceAgent.View, ClusteredServiceAgent.TableView, AgentSpec.CloseClientSession;
    connect.ViewParts();
    connect.agent.ViewTable(0);
    CloseKeepsTable(connect.agent.View(None), id, inLifecycleCallback, results);
    var answer := connect.agent.CloseAskedBy(id, inLifecycleCallback, results);
    connect.agent.ViewTable(0);
    connect.OnlyAgentMoved();
  }

  lemma CloseKeepsTable(s: AgentState, id: int, inLifecycleCallback: bool, results: seq<int>)
    ensures AgentSpec.CloseClientSession(s, id, inLifecycleCallback, results).0.core == s.core
  {
    hide TryClaim;
  }

  lemma FailedPoll(s: Connecting, m: Meeting)
    ensures s.agent.failure.Some? ==> ConnectPoll(s, m) == s
  {
  }
}
