/** Bringing an agent up: the parts it needs, the recovery counter, the snapshot, the service, and
    the first ack. Each poll meets the world as its `Meeting` says. */
module Startup {
  import opened Aeron
  import opened SessionTable
  import opened ReplicatedState
  import opened Reassembly
  import opened Publications
  import opened Snapshots
  import opened AgentSpec
  import opened Counters

  /** `loader` stands for the snapshot's image too, which is found in the same poll. */
  datatype Connecting = Connecting(
    agent: AgentState, clientId: int, clusterId: int,
    step: nat,
    publicationFound: bool, subscriptionFound: bool, archiveFound: bool, commitPositionFound: bool,
    recoveryCounterId: int,
    replayFound: bool,
    loader: Option<Loading>,
    returned: nat)      // polls that returned the agent

  /** What one poll meets. */
  datatype Meeting = Meeting(
    publicationFound: bool, subscriptionFound: bool, archiveFound: bool, counters: CountersReader,
    isConnected: bool, replayFound: bool, archiveRefuses: bool, snapshotImage: Option<seq<SnapshotMessage>>,
    available: nat, imageClosed: bool, started: bool, ackClaims: seq<int>)

  function Resolve(s: Connecting, m: Meeting): Connecting
  {
    var commitPosition := Search(m.counters, Wanted(COMMIT_POSITION_TYPE_ID, CLUSTER_KEY_OFFSET, s.clusterId), 0);
    var recovery := Search(m.counters, WantedRecovery(s.clusterId), 0);
    s.(publicationFound := s.publicationFound || m.publicationFound,
       subscriptionFound := s.subscriptionFound || m.subscriptionFound,
       archiveFound := s.archiveFound || m.archiveFound,
       commitPositionFound := s.commitPositionFound || commitPosition != NULL_COUNTER_ID,
       recoveryCounterId := if s.recoveryCounterId == NULL_COUNTER_ID then recovery else s.recoveryCounterId)
  }

  predicate AllResolved(s: Connecting)
  {
    && s.publicationFound && s.subscriptionFound && s.archiveFound && s.commitPositionFound
    && s.recoveryCounterId != NULL_COUNTER_ID
  }

  function Failed(s: Connecting, failure: Failure): Connecting { s.(agent := s.agent.(failure := Some(failure))) }

  function RecoveredCore(core: Core, c: CountersReader, id: int): Core
  {
    core.(logPosition := GetLogPosition(c, id),
          clusterTime := GetTimestamp(c, id),
          leadershipTermId := GetLeadershipTermId(c, id))
  }

  function RecordingFailure(c: CountersReader, id: int, serviceId: int): Option<Failure>
  {
    match GetSnapshotRecordingId(c, id, serviceId)
    case RecordingId(_) => None
    case InvalidServiceId => Some(InvalidRecoveryService)
    case NoActiveCounter => Some(NoRecoveryCounter)
  }

  /** Step 1: the state the recovery counter has; without a term there is no snapshot to load, else the
      archive is asked to replay it. */
  function TakeRecoveryState(s: Connecting, m: Meeting): Connecting
  {
    var core := RecoveredCore(s.agent.core, m.counters, s.recoveryCounterId);
    var recording := RecordingFailure(m.counters, s.recoveryCounterId, s.agent.config.serviceId);
    var failure :=
      if core.leadershipTermId == NULL_VALUE then None
      else if recording.Some? then recording
      else if m.archiveRefuses then Some(ArchiveRefused)
      else None;
    s.(agent := s.agent.(core := core, failure := failure),
    step := if core.leadershipTermId == NULL_VALUE then 3 else if failure.None? then 2 else s.step)
  }

  function RestoredAll(sessions: seq<Session>): (r: seq<Note>)
    ensures |r| == |sessions| && forall i | 0 <= i < |r| :: r[i] == Restored(sessions[i])
  {
    seq(|sessions|, i requires 0 <= i < |sessions| => Restored(sessions[i]))
  }

  /** What the loader has read is in the agent at once. */
  function PutIn(s: Connecting, read: Loading, sessions: seq<Session>): Connecting
  {
    s.(loader := Some(read),
    agent := s.agent.(core := s.agent.core.(table := read.table), journal := s.agent.journal + RestoredAll(sessions)))
  }

  /** The exception of the loader, of the archive when nothing was read, or of an image closed too early. */
  function LoaderFailure(read: Loading, polled: nat, m: Meeting): Option<Failure>
  {
    if read.failure.Some? then read.failure
    else if polled == 0 && m.archiveRefuses then Some(ArchiveRefused)
    else if polled == 0 && m.imageClosed then Some(SnapshotEnded)
    else None
  }

  /** One poll of the loader, and what of the snapshot it put into the agent. */
  function PollLoader(s: Connecting, l: Loading, m: Meeting): Connecting
  {
    var (read, polled) := LoadPoll(l, FRAGMENT_LIMIT, if m.imageClosed then 0 else m.available);
    var loaded := PutIn(s, read, SessionsIn(l.image[l.cursor..read.cursor]));
    var failure := LoaderFailure(read, polled, m);
    if failure.Some? then Failed(loaded, failure.value) else loaded
  }

  function LoaderOf(s: Connecting, m: Meeting): Loading
    requires s.loader.Some? || m.snapshotImage.Some?
  {
    if s.loader.None? then StartLoading(s.agent.core.table, m.snapshotImage.value) else s.loader.value
  }

  /** Step 2: the replay's subscription, its image, and the loader until it has seen END. */
  function ReplaySnapshot(s: Connecting, m: Meeting): Connecting
  {
    if !s.replayFound && !m.replayFound then s
    else
      var found := s.(replayFound := true);
      if found.loader.None? && m.snapshotImage.None? then found
      else
        var l := LoaderOf(found, m);
        if l.isDone then found.(step := 3) else PollLoader(found, l, m)
  }

  /** Step 3: the service is started until it says it is. */
  function StartService(s: Connecting, m: Meeting): Connecting
  {
    var called := s.(agent := s.agent.(journal := s.agent.journal + [Called(OnStart(s.loader.Some?))]));
    if m.started then called.(step := 4) else called
  }

  /** Step 4: the ack that makes the agent active. */
  function AckStart(s: Connecting, m: Meeting): Connecting
  {
    var (acked, sent) := SendAck(s.agent, s.clientId, m.ackClaims);
    s.(agent := acked, returned := if sent then s.returned + 1 else s.returned)
  }

  /** `AsyncConnect::poll` */
  function ConnectPoll(s: Connecting, m: Meeting): Connecting
  {
    if s.agent.failure.Some? then s
    else
      var resolved := Resolve(s, m);
      if resolved.step == 0 && !(AllResolved(resolved) && m.isConnected) then resolved
      else if resolved.step <= 1 then TakeRecoveryState(resolved.(step := 1), m)
      else if resolved.step == 2 then ReplaySnapshot(resolved, m)
      else if resolved.step == 3 then StartService(resolved, m)
      else if resolved.step == 4 then AckStart(resolved, m)
      else resolved
  }

  /** A poll, or a request of the service while it is being started. */
  datatype Attempt =
    | Polled(meeting: Meeting)
    | CloseAsked(clusterSessionId: int, inLifecycleCallback: bool, results: seq<int>)

  function ConnectStep(s: Connecting, a: Attempt): Connecting
  {
    match a
    case Polled(m) => ConnectPoll(s, m)
    case CloseAsked(id, inLifecycleCallback, results) =>
      if s.step == 3 && s.agent.failure.None?
      then s.(agent := CloseClientSession(s.agent, id, inLifecycleCallback, results).0)
      else s
  }

  function Connect(s: Connecting, attempts: seq<Attempt>): Connecting
  {
    if |attempts| == 0 then s else ConnectStep(Connect(s, attempts[..|attempts| - 1]), attempts[|attempts| - 1])
  }

  /** `AsyncConnect` and its agent as they are made. */
  predicate IsNew(s: Connecting)
  {
    && s.step == 0 && s.loader.None? && s.returned == 0 && s.recoveryCounterId == NULL_COUNTER_ID
    && s.agent.core.table == NO_SESSIONS && s.agent.closing == {} && s.agent.ackId == 0 && s.agent.journal == []
    && s.agent.failure.None? && s.agent.image.None? && s.agent.activeLog.None? && s.agent.snapshot.None?
    && s.agent.builder == EMPTY && s.agent.requestedAckPosition == NULL_POSITION
  }
}
