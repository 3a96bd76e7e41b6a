/** The clustered service agent as a state machine: every handler, the duty cycle that drives them,
    and runs of it. What the outside world decides during one duty cycle is a `Cycle`. */
module AgentSpec {
  import opened Aeron
  import opened SessionTable
  import opened ReplicatedState
  import opened Reassembly
  import opened Publications
  import opened Snapshots

  datatype Config = Config(decode: Bytes -> Event, serviceId: int, appVersion: int, fragmentLimit: nat)

  /** A join the consensus module asked for and how far it has been resolved. */
  datatype ActiveLog = ActiveLog(
    logPosition: int, maxLogPosition: int, memberId: int, role: Role,
    subscriptionId: int, subscribed: bool, image: Option<Image>)

  /** A snapshot under way: its publication, the recording of it, and what has been written. */
  datatype Snapshot = Snapshot(
    published: bool, recordingId: Option<int>, complete: bool, contents: seq<SnapshotMessage>)

  const NEW_SNAPSHOT := Snapshot(false, None, false, [])

  datatype Request =
    | ServiceAck(logPosition: int, timestamp: int, ackId: int, relevantId: int, serviceId: int)
    | CloseSession(clusterSessionId: int)

  /** What the container does to the world outside it, in order. */
  datatype Note =
    | Called(callback: Callback)
    | Sent(request: Request)
    | Restored(session: Session)
    | ClosingReset
    | AdapterPolled(nowNs: int)

  /** `closing` has the ids of the sessions marked as closing. Once `failure` is set an exception
      has left `doWork`, and nothing more happens. */
  datatype AgentState = AgentState(
    config: Config,
    core: Core,
    closing: set<int>,
    memberId: int,
    role: Role,
    ackId: int,
    requestedAckPosition: int,
    terminationPosition: int,
    isAbort: bool,
    lastSlowTickNs: int,
    builder: Builder,
    image: Option<Image>,
    maxLogPosition: int,
    activeLog: Option<ActiveLog>,
    snapshot: Option<Snapshot>,
    journal: seq<Note>,
    failure: Option<Failure>)

  // ---- Log events ----

  function CalledAll(callbacks: seq<Callback>): (r: seq<Note>)
    ensures |r| == |callbacks| && forall i | 0 <= i < |r| :: r[i] == Called(callbacks[i])
  {
    seq(|callbacks|, i requires 0 <= i < |callbacks| => Called(callbacks[i]))
  }

  /** `onMessage`: the core moves, the service is called, and a snapshot action starts a snapshot. */
  function Apply(s: AgentState, e: Event, position: int): AgentState
  {
    var o := Handle(s.core, e, position);
    s.(core := o.core,
    failure := o.failure,
    journal := s.journal + CalledAll(o.callbacks),
    closing := if e.SessionCloseEvent? then s.closing - {e.clusterSessionId} else s.closing,
    snapshot := if e.ClusterActionRequest? && e.action.SNAPSHOT? then Some(NEW_SNAPSHOT) else s.snapshot)
  }

  /** `onFragment`, with a handler that accepts the message a frame completes or aborts it. */
  function OnFragment(s: AgentState, f: Frame, accepts: bool): (AgentState, Action)
  {
    match Offered(s.builder, f)
    case None => (s.(builder := After(s.builder, f, CONTINUE)), CONTINUE)
    case Some(message) =>
      if !accepts then (s.(builder := After(s.builder, f, ABORT)), ABORT)
      else
        var applied := Apply(s, s.config.decode(message.payload), message.position);
        var action := if applied.failure.Some? then THROWN else CONTINUE;
        (applied.(builder := After(s.builder, f, action)), action)
  }

  /** `boundedControlledPoll`: frames below the limit position, of those `available`, at most
      `fragments` of them; the handler accepts `accepts` messages and aborts the next. */
  function Poll(s: AgentState, limit: int, available: nat, fragments: nat, accepts: nat): (r: (AgentState, nat))
    requires s.image.Some?
    ensures r.0.image.Some? && r.0.image.value.frames == s.image.value.frames
    ensures r.0.image.value.joinPosition == s.image.value.joinPosition
    ensures r.0.image.value.consumed == s.image.value.consumed + r.1 && r.1 <= fragments
    decreases fragments
  {
    var image := s.image.value;
    if fragments == 0 || image.consumed >= available || image.consumed >= |image.frames| || Position(image) >= limit
    then (s, 0)
    else
      var f := image.frames[image.consumed];
      var (next, action) := OnFragment(s, f, accepts > 0);
      if action == ABORT || action == THROWN then (next, 0)
      else
        var moved := next.(image := Some(image.(consumed := image.consumed + 1)));
        var left := if Offered(s.builder, f).Some? then accepts - 1 else accepts;
        var (last, polled) := Poll(moved, limit, available, fragments - 1, left);
        (last, polled + 1)
  }

  // ---- Acks, roles and closing ----

  function SendAck(s: AgentState, relevantId: int, results: seq<int>): (AgentState, bool)
  {
    match TryClaim(results)
    case CLAIMED =>
      var ack := ServiceAck(s.core.logPosition, s.core.clusterTime, s.ackId, relevantId, s.config.serviceId);
      (s.(journal := s.journal + [Sent(ack)], ackId := s.ackId + 1,
       requestedAckPosition := if relevantId == NULL_VALUE then NULL_POSITION else s.requestedAckPosition),
       true)
    case GAVE_UP => (s, false)
    case REFUSED(result) => (s.(failure := Some(PublicationState(result))), false)
  }

  function SetRole(s: AgentState, role: Role): AgentState
  {
    if role != s.role then s.(role := role, journal := s.journal + [Called(OnRoleChange(role))]) else s
  }

  datatype CloseAnswer = CLOSING | NOT_SENT | INVALID_INVOCATION | UNKNOWN_SESSION | CLOSE_REFUSED(result: int)

  /** `closeClientSession`: what it does and what it answers the service. */
  function CloseClientSession(s: AgentState, id: int, inLifecycleCallback: bool, results: seq<int>)
    : (AgentState, CloseAnswer)
  {
    if inLifecycleCallback then (s, INVALID_INVOCATION)
    else if id !in s.core.table.byId then (s, UNKNOWN_SESSION)
    else if id in s.closing then (s, CLOSING)
    else
      match TryClaim(results)
      case CLAIMED => (s.(journal := s.journal + [Sent(CloseSession(id))], closing := s.closing + {id}), CLOSING)
      case GAVE_UP => (s, NOT_SENT)
      case REFUSED(result) => (s, CLOSE_REFUSED(result))
  }

  // ---- The service adapter ----

  datatype AdapterMessage =
    | JoinLog(logPosition: int, maxLogPosition: int, memberId: int, role: int)
    | ServiceTerminationPosition(logPosition: int)
    | RequestServiceAck(logPosition: int)
    | OtherAdapterMessage
    | ForeignAdapterMessage

  /** `Cluster::getRole` */
  function RoleOf(code: int): Option<Role>
  {
    if code == 0 then Some(FOLLOWER)
    else if code == 1 then Some(CANDIDATE)
    else if code == 2 then Some(LEADER)
    else None
  }

  function OnAdapterMessage(s: AgentState, m: AdapterMessage): AgentState
  {
    match m
    case JoinLog(logPosition, maxLogPosition, memberId, code) =>
      (match RoleOf(code)
       case None => s.(failure := Some(InvalidRole))
       case Some(role) =>
         s.(maxLogPosition := maxLogPosition, image := None,
         activeLog := Some(ActiveLog(logPosition, maxLogPosition, memberId, role, NULL_VALUE, false, None))))
    case ServiceTerminationPosition(logPosition) => s.(terminationPosition := logPosition)
    case RequestServiceAck(logPosition) => s.(requestedAckPosition := logPosition)
    case OtherAdapterMessage => s
    case ForeignAdapterMessage => s.(failure := Some(UnexpectedSchema))
  }

  /** Everything outside the container that one duty cycle meets. */
  datatype Cycle = Cycle(
    nowNs: int, aeronClosed: bool, aeronClosedLater: bool, commitPositionClosed: bool,
    adapterMessage: AdapterMessage,
    subscriptionId: int, subscriptionFound: bool, logImage: Option<Image>,
    joinClaims: seq<int>, requestClaims: seq<int>,
    commitPosition: int, available: nat, accepts: nat, endOfStream: bool, imageClosed: bool,
    snapshot: SnapshotCycle)

  datatype SnapshotCycle = SnapshotCycle(
    publicationFound: bool, archiveRefuses: bool, recordingId: Option<int>, offers: seq<int>,
    serviceWrites: seq<SnapshotMessage>, serviceDone: bool, recorded: bool, ackClaims: seq<int>)

  /** How far the join can be resolved now: the subscription, then its image. */
  function ResolveJoin(a: ActiveLog, c: Cycle): ActiveLog
  {
    var subscribing := if a.subscriptionId == NULL_VALUE then a.(subscriptionId := c.subscriptionId) else a;
    if subscribing.subscriptionId == NULL_VALUE then subscribing
    else
      var subscribed := if subscribing.subscribed then subscribing else subscribing.(subscribed := c.subscriptionFound);
      if !subscribed.subscribed then subscribed
      else if subscribed.image.None? then subscribed.(image := c.logImage)
      else subscribed
  }

  predicate Resolved(a: ActiveLog) { a.subscriptionId != NULL_VALUE && a.subscribed && a.image.Some? }

  /** `joinActiveLog`: true when the image was joined. The ack's outcome is not looked at. */
  function JoinActiveLog(s: AgentState, c: Cycle): (AgentState, bool)
    requires s.activeLog.Some?
  {
    var a := ResolveJoin(s.activeLog.value, c);
    var resolving := s.(activeLog := Some(a));
    if !Resolved(a) then (resolving, false)
    else if a.image.value.joinPosition != s.core.logPosition then
      (resolving.(failure := Some(NotContiguousImage)), false)
    else if a.logPosition != s.core.logPosition then (resolving.(failure := Some(NotContiguousEvent)), false)
    else
      var joined := s.(image := a.image, maxLogPosition := a.maxLogPosition,
                       activeLog := Some(a.(subscribed := false)));
      var (acked, _) := SendAck(joined, NULL_VALUE, c.joinClaims);
      if acked.failure.Some? then (acked, false)
      else
        var member := acked.(memberId := a.memberId);
        var reset :=
          if a.role.LEADER? then member.(closing := {}, journal := member.journal + [ClosingReset]) else member;
        (SetRole(reset, a.role), true)
  }

  function PollServiceAdapter(s: AgentState, c: Cycle): AgentState
  {
    var told := OnAdapterMessage(s.(journal := s.journal + [AdapterPolled(c.nowNs)]), c.adapterMessage);
    if told.failure.Some? then told
    else
      var (joining, joined) :=
        if told.activeLog.Some? && told.image.None? then JoinActiveLog(told, c) else (told, false);
      if joining.failure.Some? then joining
      else if joined then joining.(activeLog := None)
      else if joining.requestedAckPosition != NULL_POSITION
              && joining.core.logPosition >= joining.requestedAckPosition then
        SendAck(joining, NULL_VALUE, c.requestClaims).0
      else joining
  }

  // ---- Snapshots ----

  /** The archive is asked to record a publication just found, and for errors while there is no recording. */
  predicate ArchiveThrows(snapshot: Snapshot, c: SnapshotCycle)
  {
    c.archiveRefuses && (!snapshot.published || (snapshot.recordingId.None? && c.recordingId.None?))
  }

  /** `SnapshotState::doWork`: true when the snapshot is recorded and acknowledged. */
  function SnapshotWork(s: AgentState, c: SnapshotCycle): (AgentState, bool)
    requires s.snapshot.Some?
  {
    var snapshot := s.snapshot.value;
    if !snapshot.published && !c.publicationFound then (s, false)
    else
      var published := snapshot.(published := true);
      if ArchiveThrows(snapshot, c) then (s.(snapshot := Some(published), failure := Some(ArchiveRefused)), false)
      else if published.recordingId.None? && c.recordingId.None? then (s.(snapshot := Some(published)), false)
      else
        var writing := if published.recordingId.None? then WriteState(s, published, c) else (published, None);
        if writing.1.Some? then (s.(snapshot := Some(writing.0), failure := writing.1), false)
        else CompleteSnapshot(s.(snapshot := Some(writing.0)), c)
  }

  /** `snapshotState` at the log position of the moment. */
  function WriteState(s: AgentState, snapshot: Snapshot, c: SnapshotCycle): (Snapshot, Option<Failure>)
  {
    var messages := SnapshotOf(s.core.table.sessions, s.core.logPosition, s.core.leadershipTermId, s.config.appVersion);
    var (taken, ending) := OfferAll(messages, c.offers);
    (snapshot.(recordingId := c.recordingId, contents := snapshot.contents + taken),
     match ending
     case ALL_OFFERED => None
     case OFFER_REFUSED(result) => Some(PublicationState(result))
     case OFFERING => Some(StillOffering))
  }

  /** The service is asked for its own part of the snapshot until it says that is complete. */
  function AskService(s: AgentState, c: SnapshotCycle): AgentState
    requires s.snapshot.Some?
  {
    var snapshot := s.snapshot.value;
    if snapshot.complete then s
    else s.(snapshot := Some(snapshot.(complete := c.serviceDone, contents := snapshot.contents + c.serviceWrites)),
         journal := s.journal + [Called(OnTakeSnapshot)])
  }

  /** From the service's own part of the snapshot to the ack of its recording. */
  function CompleteSnapshot(s: AgentState, c: SnapshotCycle): (AgentState, bool)
    requires s.snapshot.Some? && s.snapshot.value.recordingId.Some?
  {
    var asked := AskService(s, c);
    if !asked.snapshot.value.complete || !c.recorded then (asked, false)
    else SendAck(asked, asked.snapshot.value.recordingId.value, c.ackClaims)
  }

  // ---- The duty cycle ----

  const TICK_NS := 1_000_000

  function CheckForClockTick(s: AgentState, c: Cycle): (AgentState, bool)
  {
    if s.isAbort || c.aeronClosed then (s.(isAbort := true, failure := Some(AeronClosed)), false)
    else if c.nowNs - s.lastSlowTickNs > TICK_NS then
      var ticked := s.(lastSlowTickNs := c.nowNs);
      if c.aeronClosedLater then (ticked.(isAbort := true, failure := Some(AeronClosed)), false)
      else if c.commitPositionClosed then (ticked.(failure := Some(CommitPositionClosed)), false)
      else (ticked, true)
    else (s, false)
  }

  predicate IsDone(s: AgentState, c: Cycle)
  {
    s.image.None? || Position(s.image.value) >= s.maxLogPosition || c.endOfStream || c.imageClosed
  }

  function Max(x: int, y: int): int { if x < y then y else x }

  function CloseLog(s: AgentState): AgentState
    requires s.image.Some?
  {
    SetRole(s.(core := s.core.(logPosition := Max(Position(s.image.value), s.core.logPosition)), image := None),
            FOLLOWER)
  }

  function PollLog(s: AgentState, c: Cycle): AgentState
  {
    if s.image.None? then s
    else
      var (read, polled) := Poll(s, c.commitPosition, if c.imageClosed then 0 else c.available, s.config.fragmentLimit,
                                 c.accepts);
      if read.failure.None? && polled == 0 && IsDone(read, c) then CloseLog(read) else read
  }

  /** The part of `doWork` behind a snapshot: the clock, the service adapter, and the log. */
  function PollAll(s: AgentState, c: Cycle): AgentState
  {
    var (clock, ticked) := CheckForClockTick(s, c);
    if clock.failure.Some? then clock
    else
      var told := if ticked then PollServiceAdapter(clock, c) else clock;
      if told.failure.Some? then told else PollLog(told, c)
  }

  function DoWork(s: AgentState, c: Cycle): AgentState
  {
    if s.failure.Some? then s
    else if s.snapshot.Some? then
      var (worked, done) := SnapshotWork(s, c.snapshot);
      if done then PollAll(worked.(snapshot := None), c) else worked
    else PollAll(s, c)
  }

  // ---- Runs ----

  /** One duty cycle, or a request of the service between two events or cycles. */
  datatype Input =
    | Duty(cycle: Cycle)
    | Close(clusterSessionId: int, inLifecycleCallback: bool, results: seq<int>)

  function Step(s: AgentState, i: Input): AgentState
  {
    match i
    case Duty(cycle) => DoWork(s, cycle)
    case Close(id, inLifecycleCallback, results) => CloseClientSession(s, id, inLifecycleCallback, results).0
  }

  function Run(s: AgentState, inputs: seq<Input>): AgentState
  {
    if |inputs| == 0 then s else Step(Run(s, inputs[..|inputs| - 1]), inputs[|inputs| - 1])
  }
}
