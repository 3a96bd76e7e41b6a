/** One duty cycle, part by part, read off what the cycle meets: the clock, the message from the consensus
    module, the join, the requested ack, and the poll of the log. */
module DutyCycles {
  import opened Aeron
  import opened ReplicatedState
  import opened Reassembly
  import opened Publications
  import opened Snapshots
  import opened AgentSpec
  import opened SnapshotFreeze

  // ---- Where a cycle polls the service adapter, and what it joins ----

  /** The cycle has the service adapter polled. */
  predicate PollsAdapter(s: AgentState, c: Cycle)
  {
    CheckForClockTick(s, c).1 && CheckForClockTick(s, c).0.failure.None?
  }

  /** The state in which an input has the service adapter polled, if it does. */
  function AtAdapter(s: AgentState, i: Input): Option<AgentState>
  {
    match i
    case Close(_, _, _) => None
    case Duty(c) =>
      if s.failure.Some? || (s.snapshot.Some? && !SnapshotWork(s, c.snapshot).1) then None
      else
        var ready := if s.snapshot.Some? then SnapshotWork(s, c.snapshot).0.(snapshot := None) else s;
        if PollsAdapter(ready, c) then Some(CheckForClockTick(ready, c).0) else None
  }

  /** What the agent makes of the message it polls from the service adapter. */
  function Told(s: AgentState, c: Cycle): AgentState
  {
    OnAdapterMessage(s.(journal := s.journal + [AdapterPolled(c.nowNs)]), c.adapterMessage)
  }

  /** A join is pending, and there is no image to read. */
  predicate WaitsToJoin(s: AgentState) { s.activeLog.Some? && s.image.None? }

  /** The image an input joins, if it joins one. */
  function JoinedBy(s: AgentState, i: Input): Option<Image>
  {
    if AtAdapter(s, i).None? then None
    else
      var told := Told(AtAdapter(s, i).value, i.cycle);
      if told.failure.None? && WaitsToJoin(told) && JoinActiveLog(told, i.cycle).1
      then JoinActiveLog(told, i.cycle).0.image
      else None
  }

  // ---- The clock ----

  /** More than a millisecond has passed since the last tick, and Aeron is not closed. */
  predicate TickIsDue(s: AgentState, c: Cycle)
  {
    !s.isAbort && !c.aeronClosed && c.nowNs - s.lastSlowTickNs > 1_000_000
  }

  /** The service adapter is polled in exactly the cycles in which a tick is due and neither Aeron nor the
      commit position turns out closed; a closed Aeron is remembered; nothing else moves. */
  lemma ClockExactly(s: AgentState, c: Cycle)
    requires s.failure.None?
    ensures var (t, ticked) := CheckForClockTick(s, c);
            var due := TickIsDue(s, c);
            var closed := s.isAbort || c.aeronClosed || (due && c.aeronClosedLater);
            && (ticked <==> due && !closed && !c.commitPositionClosed)
            && t == s.(lastSlowTickNs := if due then c.nowNs else s.lastSlowTickNs, isAbort := closed,
                       failure := if closed then Some(AeronClosed)
                                  else if due && c.commitPositionClosed then Some(CommitPositionClosed) else None)
  {
  }

  // ---- The message from the consensus module ----

  predicate IsCode(code: int, role: Role)
  {
    match role
    case FOLLOWER => code == 0
    case CANDIDATE => code == 1
    case LEADER => code == 2
  }

  /** A join asked for: nothing of it found yet. */
  predicate IsFresh(a: ActiveLog, m: AdapterMessage)
  {
    && m.JoinLog? && IsCode(m.role, a.role)
    && a == ActiveLog(m.logPosition, m.maxLogPosition, m.memberId, a.role, NULL_VALUE, false, None)
  }

  /** One message: a join drops the image and is pending afresh, with the limit it sets; positions are taken
      down; and the only exceptions are those of an unknown role and of a foreign schema. */
  lemma ToldExactly(s: AgentState, c: Cycle)
    requires s.failure.None?
    ensures var t, m := Told(s, c), c.adapterMessage;
            var joins := m.JoinLog? && 0 <= m.role <= 2;
            && t.failure == (if m.ForeignAdapterMessage? then Some(UnexpectedSchema)
                             else if m.JoinLog? && !joins then Some(InvalidRole) else None)
            && t.journal == s.journal + [AdapterPolled(c.nowNs)]
            && (if joins then t.activeLog.Some? && IsFresh(t.activeLog.value, m) else t.activeLog == s.activeLog)
            && t == s.(failure := t.failure, journal := t.journal, activeLog := t.activeLog,
                       image := if joins then None else s.image,
                       maxLogPosition := if joins then m.maxLogPosition else s.maxLogPosition,
                       requestedAckPosition :=
                         if m.RequestServiceAck? then m.logPosition else s.requestedAckPosition,
                       terminationPosition :=
                         if m.ServiceTerminationPosition? then m.logPosition else s.terminationPosition)
  {
  }

  // ---- The join ----

  /** What of a pending join has been found by now: its subscription's id, the subscription, its image, each
      only with the one before, and each only until it is found. */
  function FoundOf(a: ActiveLog, c: Cycle): ActiveLog
  {
    var id := if a.subscriptionId != NULL_VALUE then a.subscriptionId else c.subscriptionId;
    var subscribed := a.subscribed || (id != NULL_VALUE && c.subscriptionFound);
    a.(subscriptionId := id, subscribed := subscribed,
       image := if a.image.None? && id != NULL_VALUE && subscribed then c.logImage else a.image)
  }

  predicate AllFound(a: ActiveLog) { a.subscriptionId != NULL_VALUE && a.subscribed && a.image.Some? }

  predicate Contiguous(s: AgentState, a: ActiveLog)
    requires a.image.Some?
  {
    a.image.value.joinPosition == s.core.logPosition && a.logPosition == s.core.logPosition
  }

  function PlainAck(s: AgentState): Note
  {
    Sent(ServiceAck(s.core.logPosition, s.core.clusterTime, s.ackId, NULL_VALUE, s.config.serviceId))
  }

  /** What a try to join comes to. With all found, it fails where the image or the event is not at the log
      position, or the ack is refused for good; else it comes about. A leader's join, and no other, takes off
      all closing marks; the service is told of the role if it is a new one. */
  ghost predicate JoinedTo(s: AgentState, c: Cycle, t: AgentState, joined: bool)
    requires s.activeLog.Some?
  {
    var a, claim := FoundOf(s.activeLog.value, c), TryClaim(c.joinClaims);
    if !AllFound(a) then !joined && t == s.(activeLog := Some(a))
    else if !Contiguous(s, a) then
      !joined && t == s.(activeLog := Some(a),
                         failure := Some(if a.image.value.joinPosition != s.core.logPosition
                                         then NotContiguousImage else NotContiguousEvent))
    else
      && (joined <==> !claim.REFUSED?)
      && t.image == a.image && t.maxLogPosition == a.maxLogPosition
      && if !joined then
           t == s.(image := a.image, maxLogPosition := a.maxLogPosition, activeLog := t.activeLog,
                   failure := Some(PublicationState(claim.result)))
         else
           && t.role == a.role && t.memberId == a.memberId
           && t.closing == (if a.role == LEADER then {} else s.closing)
           && t.journal == s.journal
                           + (if claim == CLAIMED then [PlainAck(s)] else [])
                           + (if a.role == LEADER then [ClosingReset] else [])
                           + (if a.role != s.role then [Called(OnRoleChange(a.role))] else [])
           && t.ackId == (if claim == CLAIMED then s.ackId + 1 else s.ackId)
           && t.requestedAckPosition == (if claim == CLAIMED then NULL_POSITION else s.requestedAckPosition)
           && t == s.(image := t.image, maxLogPosition := t.maxLogPosition, role := t.role, memberId := t.memberId,
                      closing := t.closing, journal := t.journal, ackId := t.ackId, activeLog := t.activeLog,
                      requestedAckPosition := t.requestedAckPosition)
  }

  lemma JoinsExactly(s: AgentState, c: Cycle)
    requires s.activeLog.Some? && s.failure.None?
    ensures JoinedTo(s, c, JoinActiveLog(s, c).0, JoinActiveLog(s, c).1)
  {
    hide TryClaim;
    assert ResolveJoin(s.activeLog.value, c) == FoundOf(s.activeLog.value, c);
    hide ResolveJoin, FoundOf;
    assert s.journal + [] == s.journal;
  }

  // ---- The poll of the service adapter ----

  /** A requested position that the log has reached is acknowledged, if the claim is granted. */
  ghost predicate AckedIfDue(s: AgentState, c: Cycle, t: AgentState)
  {
    var claim := TryClaim(c.requestClaims);
    if s.requestedAckPosition == NULL_POSITION || s.requestedAckPosition > s.core.logPosition || claim == GAVE_UP
    then t == s
    else if claim == CLAIMED then
      t == s.(journal := s.journal + [PlainAck(s)], ackId := s.ackId + 1, requestedAckPosition := NULL_POSITION)
    else t == s.(failure := Some(PublicationState(claim.result)))
  }

  /** After the message, a pending join is tried while there is no image; where it comes about, or fails, that
      is all; else the requested position is looked at. */
  ghost predicate TickedTo(s: AgentState, c: Cycle, t: AgentState)
  {
    var told := Told(s, c);
    if told.failure.Some? then t == told
    else if WaitsToJoin(told) && AllFound(FoundOf(told.activeLog.value, c)) then
      exists joining, joined :: && JoinedTo(told, c, joining, joined)
                                && t == if joined then joining.(activeLog := None) else joining
    else
      var waiting := if WaitsToJoin(told) then told.(activeLog := Some(FoundOf(told.activeLog.value, c))) else told;
      AckedIfDue(waiting, c, t)
  }

  lemma AcksIfDue(s: AgentState, c: Cycle)
    requires s.failure.None?
    ensures AckedIfDue(s, c, if s.requestedAckPosition != NULL_POSITION
                                && s.core.logPosition >= s.requestedAckPosition
                             then SendAck(s, NULL_VALUE, c.requestClaims).0 else s)
  {
    hide TryClaim;
  }

  lemma TriesOn(told: AgentState, c: Cycle)
    requires told.failure.None? && WaitsToJoin(told) && !AllFound(FoundOf(told.activeLog.value, c))
    ensures JoinActiveLog(told, c) == (told.(activeLog := Some(FoundOf(told.activeLog.value, c))), false)
  {
    JoinsExactly(told, c);
    hide JoinActiveLog, FoundOf;
  }

  lemma JoinsOrFails(told: AgentState, c: Cycle)
    requires told.failure.None? && WaitsToJoin(told) && AllFound(FoundOf(told.activeLog.value, c))
    ensures JoinActiveLog(told, c).1 <==> JoinActiveLog(told, c).0.failure.None?
  {
    JoinsExactly(told, c);
    hide JoinActiveLog, FoundOf, TryClaim;
  }

  lemma TicksExactly(s: AgentState, c: Cycle)
    requires s.failure.None?
    ensures TickedTo(s, c, PollServiceAdapter(s, c))
  {
    var told := Told(s, c);
    assert told == OnAdapterMessage(s.(journal := s.journal + [AdapterPolled(c.nowNs)]), c.adapterMessage);
    hide Told, OnAdapterMessage, JoinActiveLog, JoinedTo, SendAck, AckedIfDue, FoundOf, AllFound;
    if told.failure.None? {
      if WaitsToJoin(told) {
        if AllFound(FoundOf(told.activeLog.value, c)) {
          JoinsOrFails(told, c);
          JoinsExactly(told, c);
        } else {
          TriesOn(told, c);
          AcksIfDue(told.(activeLog := Some(FoundOf(told.activeLog.value, c))), c);
        }
      } else {
        AcksIfDue(told, c);
      }
    }
  }

  // ---- The poll of the log ----

  function EntryOf(decode: Bytes -> Event, d: Delivery): Entry { Entry(decode(d.payload), d.position) }

  function EntriesOf(decode: Bytes -> Event, ds: seq<Delivery>): (r: seq<Entry>)
    ensures |r| == |ds|
  {
    seq(|ds|, i requires 0 <= i < |ds| => EntryOf(decode, ds[i]))
  }

  predicate AsksForSnapshot(e: Event) { e.ClusterActionRequest? && e.action.SNAPSHOT? }

  /** The events have been applied one after the other: the state and the callbacks are those of replaying
      them; a snapshot is due anew if one of them asks for one; and closed sessions have no mark. */
  ghost predicate AppliesAll(s: AgentState, t: AgentState, events: seq<Entry>)
  {
    var o := Replay(s.core, events);
    && t == s.(core := o.core, failure := o.failure, journal := s.journal + CalledAll(o.callbacks),
               closing := t.closing, snapshot := t.snapshot, builder := t.builder, image := t.image)
    && (forall id :: id in t.closing <==>
                     id in s.closing && forall i | 0 <= i < |events| :: !Closes(events[i].event, id))
    && t.snapshot == if exists i :: 0 <= i < |events| && AsksForSnapshot(events[i].event) then Some(NEW_SNAPSHOT)
                     else s.snapshot
  }

  lemma AppliesNone(s: AgentState, t: AgentState)
    requires s.failure.None? && t == s.(builder := t.builder, image := t.image)
    ensures AppliesAll(s, t, [])
  {
    assert s.journal + CalledAll([]) == s.journal;
  }

  lemma ReplaysOne(core: Core, e: Entry)
    ensures Replay(core, [e]) == Handle(core, e.event, e.position)
  {
    hide Handle;
    assert [e][..0] == [];
    assert Replay(core, []) == Outcome(core, [], None);
    assert [] + Handle(core, e.event, e.position).callbacks == Handle(core, e.event, e.position).callbacks;
  }

  lemma AppliesOne(s: AgentState, e: Entry)
    ensures AppliesAll(s, Apply(s, e.event, e.position), [e])
  {
    ReplaysOne(s.core, e);
    hide Handle, Replay;
    assert [e][0] == e;
  }

  lemma CalledInTurn(xs: seq<Callback>, ys: seq<Callback>)
    ensures CalledAll(xs + ys) == CalledAll(xs) + CalledAll(ys)
  {
  }

  lemma AppliesFurther(s: AgentState, t: AgentState, u: AgentState, xs: seq<Entry>, ys: seq<Entry>)
    requires AppliesAll(s, t, xs) && t.failure.None? && AppliesAll(t, u, ys)
    ensures AppliesAll(s, u, xs + ys)
  {
    hide Replay;
    ReplayAppends(s.core, xs, ys);
    CalledInTurn(Replay(s.core, xs).callbacks, Replay(t.core, ys).callbacks);
    hide CalledAll;
    var all := xs + ys;
    assert forall i | 0 <= i < |ys| :: all[|xs| + i] == ys[i];
    forall id ensures id in u.closing <==> id in s.closing && forall i | 0 <= i < |all| :: !Closes(all[i].event, id) {
      assert forall i | 0 <= i < |xs| :: all[i] == xs[i];
    }
    if i :| 0 <= i < |xs| && AsksForSnapshot(xs[i].event) {
      assert AsksForSnapshot(all[i].event);
    }
    if i :| 0 <= i < |ys| && AsksForSnapshot(ys[i].event) {
      assert AsksForSnapshot(all[|xs| + i].event);
    }
    if i :| 0 <= i < |all| && AsksForSnapshot(all[i].event) {
      assert if i < |xs| then AsksForSnapshot(xs[i].event) else AsksForSnapshot(ys[i - |xs|].event);
    }
  }

  /** The frames of the next `n`. */
  function Next(image: Image, n: nat): seq<Frame>
    requires image.consumed + n <= |image.frames|
  {
    image.frames[image.consumed..image.consumed + n]
  }

  /** The messages that `n` frames complete. */
  function Completed(s: AgentState, n: nat): seq<Delivery>
    requires s.image.Some? && s.image.value.consumed + n <= |s.image.value.frames|
  {
    Deliveries(s.builder, Next(s.image.value, n))
  }

  /** What keeps a poll that has read `n` frames from reading the next. */
  ghost predicate HasToStop(s: AgentState, n: nat, limit: int, available: nat, fragments: nat, accepts: nat)
    requires s.image.Some? && s.image.value.consumed + n <= |s.image.value.frames|
  {
    var image := s.image.value.(consumed := s.image.value.consumed + n);
    || n >= fragments || image.consumed >= available || image.consumed == |image.frames| || Position(image) >= limit
    || (&& |Completed(s, n)| == accepts
        && Offered(Feed(s.builder, Next(s.image.value, n)), image.frames[image.consumed]).Some?)
  }

  /** A poll that read `n` frames did not have to stop before, and stops where it has to, or fails. */
  ghost predicate ReadsToStop(s: AgentState, failed: bool, n: nat, limit: int, available: nat, fragments: nat,
                              accepts: nat)
    requires s.image.Some? && s.image.value.consumed + n <= |s.image.value.frames|
  {
    && |Completed(s, n)| <= accepts
    && (forall k: nat | k < n :: !HasToStop(s, k, limit, available, fragments, accepts))
    && (failed <==> !HasToStop(s, n, limit, available, fragments, accepts))
  }

  /** The events of the messages completed, and of the one whose application failed. */
  function AppliedEvents(s: AgentState, n: nat, failed: bool): seq<Entry>
    requires s.image.Some? && s.image.value.consumed + n <= |s.image.value.frames|
  {
    var image := s.image.value;
    EntriesOf(s.config.decode, Completed(s, n)) +
    if !failed || image.consumed + n == |image.frames| then []
    else
      match Offered(Feed(s.builder, Next(image, n)), image.frames[image.consumed + n])
      case None => []
      case Some(last) => [EntryOf(s.config.decode, last)]
  }

  /** The events a poll has applied that read `n` frames: of the messages these complete; and, if it failed,
      of the one the next frame completes. */
  ghost predicate HasPolled(s: AgentState, t: AgentState, n: nat)
    requires s.image.Some? && s.image.value.consumed + n <= |s.image.value.frames|
  {
    && t.image == Some(s.image.value.(consumed := s.image.value.consumed + n))
    && AppliesAll(s, t, AppliedEvents(s, n, t.failure.Some?))
    && (t.failure.None? ==> t.builder == Feed(s.builder, Next(s.image.value, n)))
  }

  ghost predicate PolledTo(s: AgentState, t: AgentState, n: nat, limit: int, available: nat, fragments: nat,
                           accepts: nat)
    requires s.image.Some? && s.image.value.consumed + n <= |s.image.value.frames|
  {
    HasPolled(s, t, n) && ReadsToStop(s, t.failure.Some?, n, limit, available, fragments, accepts)
  }

  /** A state one frame further on: the frame has been taken in, with whatever message it completed applied. */
  ghost predicate OneFrameOn(s: AgentState, moved: AgentState)
    requires s.image.Some? && s.image.value.consumed < |s.image.value.frames|
  {
    && moved.image == Some(s.image.value.(consumed := s.image.value.consumed + 1))
    && moved.builder == After(s.builder, s.image.value.frames[s.image.value.consumed], CONTINUE)
    && moved.config == s.config
  }

  lemma CompletedFurther(s: AgentState, moved: AgentState, k: nat)
    requires s.image.Some? && s.image.value.consumed + k < |s.image.value.frames| && OneFrameOn(s, moved)
    ensures var f := s.image.value.frames[s.image.value.consumed];
            && Feed(s.builder, Next(s.image.value, k + 1)) == Feed(moved.builder, Next(moved.image.value, k))
            && Completed(s, k + 1) ==
               (if Offered(s.builder, f).Some? then [Offered(s.builder, f).value] else []) + Completed(moved, k)
  {
    var image := s.image.value;
    var f, rest := image.frames[image.consumed], Next(moved.image.value, k);
    assert Next(image, k + 1) == [f] + rest;
    assert ([f] + rest)[1..] == rest;
    hide Offered, After;
    assert [] + Completed(moved, k) == Completed(moved, k);
  }

  lemma StopsFurther(s: AgentState, moved: AgentState, k: nat, limit: int, available: nat, fragments: nat, accepts: nat)
    requires s.image.Some? && s.image.value.consumed + k < |s.image.value.frames| && OneFrameOn(s, moved)
    requires fragments > 0 && !HasToStop(s, 0, limit, available, fragments, accepts)
    ensures var offered := Offered(s.builder, s.image.value.frames[s.image.value.consumed]).Some?;
            && (offered ==> accepts > 0)
            && (HasToStop(s, k + 1, limit, available, fragments, accepts) <==>
                HasToStop(moved, k, limit, available, fragments - 1, if offered then accepts - 1 else accepts))
  {
    CompletedFurther(s, moved, k);
    assert Next(s.image.value, 0) == [];
    hide Offered, After, Position;
  }

  /** Without a message to hand over, or with one that is aborted or applied. */
  lemma FragmentDoes(s: AgentState, f: Frame, accepts: bool)
    requires s.failure.None?
    ensures var (next, action) := OnFragment(s, f, accepts);
            var offered := Offered(s.builder, f);
            && next.image == s.image && next.config == s.config
            && (offered.None? ==> action == CONTINUE && AppliesAll(s, next, []) && next.failure.None?)
            && (offered.Some? && !accepts ==> action == ABORT && next == s)
            && (offered.Some? && accepts ==>
                  && AppliesAll(s, next, [EntryOf(s.config.decode, offered.value)])
                  && action == (if next.failure.Some? then THROWN else CONTINUE))
            && (action == CONTINUE ==> next.builder == After(s.builder, f, CONTINUE))
  {
    var (next, action) := OnFragment(s, f, accepts);
    var offered := Offered(s.builder, f);
    if offered.None? {
      AppliesNone(s, next);
    } else if accepts {
      var e := EntryOf(s.config.decode, offered.value);
      AppliesOne(s, e);
      SameButBuilder(s, Apply(s, e.event, e.position), next, [e]);
    }
    hide Handle, Replay;
  }

  lemma SameButBuilder(s: AgentState, t: AgentState, u: AgentState, events: seq<Entry>)
    requires AppliesAll(s, t, events) && u == t.(builder := u.builder, image := u.image)
    ensures AppliesAll(s, u, events)
  {
    hide Replay;
  }

  lemma NothingPolled(s: AgentState, limit: int, available: nat, fragments: nat, accepts: nat)
    requires s.image.Some? && s.failure.None? && HasToStop(s, 0, limit, available, fragments, accepts)
    ensures PolledTo(s, s, 0, limit, available, fragments, accepts)
  {
    hide HasToStop;
    assert Next(s.image.value, 0) == [];
    AppliesNone(s, s);
    assert AppliedEvents(s, 0, false) == [];
  }

  /** The event of the first frame, if it completes a message. */
  function FirstOf(s: AgentState): seq<Entry>
    requires s.image.Some? && s.image.value.consumed < |s.image.value.frames|
  {
    var offered := Offered(s.builder, s.image.value.frames[s.image.value.consumed]);
    if offered.Some? then [EntryOf(s.config.decode, offered.value)] else []
  }

  lemma EventsAdd(decode: Bytes -> Event, xs: seq<Delivery>, ys: seq<Delivery>)
    ensures EntriesOf(decode, xs + ys) == EntriesOf(decode, xs) + EntriesOf(decode, ys)
  {
    hide EntryOf;
  }

  lemma CompletedEvents(s: AgentState, moved: AgentState, n: nat)
    requires s.image.Some? && s.image.value.consumed + n < |s.image.value.frames| && OneFrameOn(s, moved)
    ensures EntriesOf(s.config.decode, Completed(s, n + 1)) ==
            FirstOf(s) + EntriesOf(s.config.decode, Completed(moved, n))
  {
    CompletedFurther(s, moved, n);
    var offered := Offered(s.builder, s.image.value.frames[s.image.value.consumed]);
    var first := if offered.Some? then [offered.value] else [];
    assert EntriesOf(s.config.decode, first) == FirstOf(s);
    hide *;
    EventsAdd(s.config.decode, first, Completed(moved, n));
  }

  lemma EventsFurther(s: AgentState, moved: AgentState, n: nat, failed: bool)
    requires s.image.Some? && s.image.value.consumed + n < |s.image.value.frames| && OneFrameOn(s, moved)
    ensures AppliedEvents(s, n + 1, failed) == FirstOf(s) + AppliedEvents(moved, n, failed)
  {
    CompletedFurther(s, moved, n);
    CompletedEvents(s, moved, n);
    hide Offered, After, Completed, FirstOf, EntriesOf, Feed;
    assert s.image.value.consumed + (n + 1) == moved.image.value.consumed + n;
  }

  lemma ReadFurther(s: AgentState, moved: AgentState, n: nat)
    requires s.image.Some? && s.image.value.consumed + n < |s.image.value.frames| && OneFrameOn(s, moved)
    ensures s.image.value.(consumed := s.image.value.consumed + (n + 1)) ==
            moved.image.value.(consumed := moved.image.value.consumed + n)
    ensures Feed(s.builder, Next(s.image.value, n + 1)) == Feed(moved.builder, Next(moved.image.value, n))
  {
    CompletedFurther(s, moved, n);
    hide Feed, Next, After;
  }

  lemma AppliedFurther(s: AgentState, moved: AgentState, t: AgentState, n: nat)
    requires s.image.Some? && s.image.value.consumed + n < |s.image.value.frames| && OneFrameOn(s, moved)
    requires moved.failure.None? && AppliesAll(s, moved, FirstOf(s)) && HasPolled(moved, t, n)
    ensures HasPolled(s, t, n + 1)
  {
    hide AppliesAll, Completed, FirstOf, EntriesOf, Feed, AppliedEvents, Next, After, Offered;
    ReadFurther(s, moved, n);
    EventsFurther(s, moved, n, t.failure.Some?);
    AppliesFurther(s, moved, t, FirstOf(s), AppliedEvents(moved, n, t.failure.Some?));
  }

  lemma StopFurther(s: AgentState, moved: AgentState, failed: bool, n: nat, limit: int, available: nat,
                    fragments: nat, accepts: nat)
    requires s.image.Some? && s.image.value.consumed + n < |s.image.value.frames| && OneFrameOn(s, moved)
    requires fragments > 0 && !HasToStop(s, 0, limit, available, fragments, accepts)
    requires var offered := Offered(s.builder, s.image.value.frames[s.image.value.consumed]).Some?;
             && (offered ==> accepts > 0)
             && ReadsToStop(moved, failed, n, limit, available, fragments - 1, if offered then accepts - 1 else accepts)
    ensures ReadsToStop(s, failed, n + 1, limit, available, fragments, accepts)
  {
    CompletedFurther(s, moved, n);
    var left := if Offered(s.builder, s.image.value.frames[s.image.value.consumed]).Some? then accepts - 1 else accepts;
    StopsFurther(s, moved, n, limit, available, fragments, accepts);
    forall k: nat | k < n + 1 ensures !HasToStop(s, k, limit, available, fragments, accepts) {
      if k > 0 {
        StopsFurther(s, moved, k - 1, limit, available, fragments, accepts);
        assert !HasToStop(moved, k - 1, limit, available, fragments - 1, left);
      }
    }
  }

  lemma OneFrameOnApplies(s: AgentState, next: AgentState, moved: AgentState)
    requires s.image.Some? && s.image.value.consumed < |s.image.value.frames|
    requires moved == next.(image := Some(s.image.value.(consumed := s.image.value.consumed + 1)))
    requires var offered := Offered(s.builder, s.image.value.frames[s.image.value.consumed]);
             AppliesAll(s, next, if offered.Some? then [EntryOf(s.config.decode, offered.value)] else [])
    ensures AppliesAll(s, moved, FirstOf(s))
  {
    hide AppliesAll, Offered;
    SameButBuilder(s, next, moved, FirstOf(s));
  }

  lemma StopsAtOnce(s: AgentState, limit: int, available: nat, fragments: nat, accepts: nat)
    requires s.image.Some?
    ensures var image := s.image.value;
            HasToStop(s, 0, limit, available, fragments, accepts) <==>
            || fragments == 0 || image.consumed >= available || image.consumed >= |image.frames|
            || Position(image) >= limit || (accepts == 0 && Offered(s.builder, image.frames[image.consumed]).Some?)
  {
    hide Offered, Position;
    assert Next(s.image.value, 0) == [];
  }

  /** How a poll goes on behind its first frame. */
  lemma PollUnfolds(s: AgentState, limit: int, available: nat, fragments: nat, accepts: nat)
    requires s.image.Some?
    ensures var r, image := Poll(s, limit, available, fragments, accepts), s.image.value;
            if || fragments == 0 || image.consumed >= available || image.consumed >= |image.frames|
               || Position(image) >= limit then r == (s, 0)
            else
              var f := image.frames[image.consumed];
              var (next, action) := OnFragment(s, f, accepts > 0);
              var offered := Offered(s.builder, f).Some?;
              if action == ABORT || action == THROWN then r == (next, 0)
              else
                && (offered ==> accepts > 0)
                && var moved := next.(image := Some(image.(consumed := image.consumed + 1)));
                var rest := Poll(moved, limit, available, fragments - 1, if offered then accepts - 1 else accepts);
                r == (rest.0, rest.1 + 1)
  {
    hide Offered, After, Apply, Position;
  }

  lemma PollsOn(s: AgentState, next: AgentState, t: AgentState, n: nat, limit: int, available: nat, fragments: nat,
                accepts: nat)
    requires s.image.Some? && s.image.value.consumed < |s.image.value.frames| && s.failure.None? && fragments > 0
    requires !HasToStop(s, 0, limit, available, fragments, accepts) && next.failure.None? && next.config == s.config
    requires next.builder == After(s.builder, s.image.value.frames[s.image.value.consumed], CONTINUE)
    requires var offered := Offered(s.builder, s.image.value.frames[s.image.value.consumed]);
             && AppliesAll(s, next, if offered.Some? then [EntryOf(s.config.decode, offered.value)] else [])
             && (offered.Some? ==> accepts > 0)
             && var moved := next.(image := Some(s.image.value.(consumed := s.image.value.consumed + 1)));
             moved.image.value.consumed + n <= |moved.image.value.frames| &&
             PolledTo(moved, t, n, limit, available, fragments - 1, if offered.Some? then accepts - 1 else accepts)
    ensures s.image.value.consumed + n < |s.image.value.frames|
    ensures PolledTo(s, t, n + 1, limit, available, fragments, accepts)
  {
    var moved := next.(image := Some(s.image.value.(consumed := s.image.value.consumed + 1)));
    OneFrameOnApplies(s, next, moved);
    hide AppliesAll, HasToStop, HasPolled, ReadsToStop, Offered, After, FirstOf;
    AppliedFurther(s, moved, t, n);
    StopFurther(s, moved, t.failure.Some?, n, limit, available, fragments, accepts);
  }

  /** Any poll, over any frames, reads on until it has to stop: at its number of fragments, where no more is
      available, at the limit, or where a message it completes is aborted. What it has applied is what
      replaying the messages completed in it comes to, once each and in order; it fails where that does. */
  lemma {:induction false} PollsExactly(s: AgentState, limit: int, available: nat, fragments: nat, accepts: nat)
    requires s.image.Some? && s.failure.None?
    ensures var (t, n) := Poll(s, limit, available, fragments, accepts);
            s.image.value.consumed + n <= |s.image.value.frames|
            && PolledTo(s, t, n, limit, available, fragments, accepts)
    decreases fragments
  {
    hide *;
    StopsAtOnce(s, limit, available, fragments, accepts);
    PollUnfolds(s, limit, available, fragments, accepts);
    var image := s.image.value;
    if || fragments == 0 || image.consumed >= available || image.consumed >= |image.frames|
       || Position(image) >= limit {
      NothingPolled(s, limit, available, fragments, accepts);
    } else {
      var f := image.frames[image.consumed];
      var (next, action) := OnFragment(s, f, accepts > 0);
      FragmentDoes(s, f, accepts > 0);
      if action == ABORT {
        NothingPolled(s, limit, available, fragments, accepts);
      } else if action == THROWN {
        ThrownAtOnce(s, next, limit, available, fragments, accepts);
      } else {
        var moved := next.(image := Some(image.(consumed := image.consumed + 1)));
        var left := if Offered(s.builder, f).Some? then accepts - 1 else accepts;
        PollsExactly(moved, limit, available, fragments - 1, left);
        var (t, n) := Poll(moved, limit, available, fragments - 1, left);
        PollsOn(s, next, t, n, limit, available, fragments, accepts);
      }
    }
  }

  lemma ThrownAtOnce(s: AgentState, next: AgentState, limit: int, available: nat, fragments: nat, accepts: nat)
    requires s.image.Some? && s.failure.None? && s.image.value.consumed < |s.image.value.frames|
    requires next.failure.Some? && next.image == s.image && !HasToStop(s, 0, limit, available, fragments, accepts)
    requires var offered := Offered(s.builder, s.image.value.frames[s.image.value.consumed]);
             offered.Some? && AppliesAll(s, next, [EntryOf(s.config.decode, offered.value)])
    ensures PolledTo(s, next, 0, limit, available, fragments, accepts)
  {
    hide AppliesAll, Offered, After, Position, HasToStop;
    assert Next(s.image.value, 0) == [];
    var e := EntryOf(s.config.decode, Offered(s.builder, s.image.value.frames[s.image.value.consumed]).value);
    assert AppliedEvents(s, 0, true) == [e];
  }

  // ---- The end of the log ----

  lemma PollKeepsLimit(s: AgentState, limit: int, available: nat, fragments: nat, accepts: nat)
    requires s.image.Some? && s.failure.None?
    ensures Poll(s, limit, available, fragments, accepts).0.maxLogPosition == s.maxLogPosition
  {
    PollsExactly(s, limit, available, fragments, accepts);
    hide Poll, ReadsToStop, Replay, Deliveries, Feed, CalledAll, Offered;
  }

  /** The image is dropped in exactly the cycles that read nothing of it while it is done: read to the limit the
      join set, at the end of its stream, or closed. The log position is then at least its position, and the
      agent a follower, which the service is told if it is news. */
  lemma ClosesExactly(s: AgentState, c: Cycle)
    requires s.image.Some? && s.failure.None?
    ensures var (read, n) := Poll(s, c.commitPosition, if c.imageClosed then 0 else c.available,
                                  s.config.fragmentLimit, c.accepts);
            var position := Position(s.image.value);
            PollLog(s, c) ==
            if read.failure.None? && n == 0 && (position >= s.maxLogPosition || c.endOfStream || c.imageClosed) then
              read.(core := read.core.(logPosition := if position > read.core.logPosition then position
                                                      else read.core.logPosition),
                    image := None, role := FOLLOWER,
                    journal := read.journal + if read.role == FOLLOWER then [] else [Called(OnRoleChange(FOLLOWER))])
            else read
  {
    hide Poll, Position;
    var (read, n) := Poll(s, c.commitPosition, if c.imageClosed then 0 else c.available, s.config.fragmentLimit,
                          c.accepts);
    assert n == 0 ==> read.image.value == s.image.value;
    assert read.journal + [] == read.journal;
    PollKeepsLimit(s, c.commitPosition, if c.imageClosed then 0 else c.available, s.config.fragmentLimit, c.accepts);
  }

  // ---- The parts of a cycle ----

  /** The state in which the clock is looked at, if a snapshot under way lets the cycle come to that. */
  function BehindSnapshot(s: AgentState, c: Cycle): Option<AgentState>
  {
    if s.failure.Some? then None
    else if s.snapshot.None? then Some(s)
    else if SnapshotWork(s, c.snapshot).1 then Some(SnapshotWork(s, c.snapshot).0.(snapshot := None))
    else None
  }

  lemma AckedUnfailed(s: AgentState, c: SnapshotCycle)
    requires s.snapshot.Some? && s.failure.None?
    ensures SnapshotWork(s, c).1 ==> SnapshotWork(s, c).0.failure.None?
  {
    WorksExactly(s, c);
    AcknowledgesExactly(s, c);
    hide SnapshotWork, TryClaim, OfferAll, StateMessages;
  }

  /** A cycle is its work on the snapshot, and where that is out of the way the clock, where it ticks the
      service adapter, and the log. */
  lemma CycleInParts(s: AgentState, c: Cycle)
    ensures var ready, at := BehindSnapshot(s, c), AtAdapter(s, Duty(c));
            && (ready.Some? ==> ready.value.failure.None?)
            && (at.Some? ==> ready.Some? && at.value == ready.value.(lastSlowTickNs := c.nowNs))
            && DoWork(s, c) ==
               if ready.None? then (if s.failure.Some? then s else SnapshotWork(s, c.snapshot).0)
               else if at.None? then
                 (var clock := CheckForClockTick(ready.value, c).0;
                  if clock.failure.Some? then clock else PollLog(clock, c))
               else
                 var told := PollServiceAdapter(at.value, c);
                 if told.failure.Some? then told else PollLog(told, c)
  {
    if s.failure.None? && s.snapshot.Some? {
      AckedUnfailed(s, c.snapshot);
    }
    if BehindSnapshot(s, c).Some? {
      hide SnapshotWork;
      ClockExactly(BehindSnapshot(s, c).value, c);
    }
    hide SnapshotWork, PollServiceAdapter, PollLog, CheckForClockTick;
  }

  // ---- What the log calls ----

  /** A call of the service for an event of the log. */
  predicate IsLogCall(n: Note)
  {
    n.Called? && !n.callback.OnRoleChange? && !n.callback.OnTakeSnapshot? && !n.callback.OnStart?
  }

  lemma {:induction false} ReplayCalls(core: Core, log: seq<Entry>)
    ensures forall k | 0 <= k < |Replay(core, log).callbacks| :: IsLogCall(Called(Replay(core, log).callbacks[k]))
    decreases |log|
  {
    if log != [] {
      var init, last := log[..|log| - 1], log[|log| - 1];
      ReplayCalls(core, init);
      HandleCallsOnce(Replay(core, init).core, last.event, last.position);
      hide Handle;
    }
  }

  /** All a poll does to the journal is to note calls for log events. */
  lemma PollCalls(s: AgentState, limit: int, available: nat, fragments: nat, accepts: nat)
    requires s.image.Some? && s.failure.None?
    ensures var t := Poll(s, limit, available, fragments, accepts).0;
            && s.journal <= t.journal && t.role == s.role && t.activeLog == s.activeLog
            && t.requestedAckPosition == s.requestedAckPosition
            && (forall id | id in t.closing :: id in s.closing)
            && forall k | |s.journal| <= k < |t.journal| :: IsLogCall(t.journal[k])
  {
    PollsExactly(s, limit, available, fragments, accepts);
    var (t, n) := Poll(s, limit, available, fragments, accepts);
    ReplayCalls(s.core, AppliedEvents(s, n, t.failure.Some?));
    hide Poll, ReadsToStop, Replay, AppliedEvents, Feed, IsLogCall;
  }

  // ---- Every cycle reads the log ----

  /** The image a cycle reads: the one it joins; none where a new join is asked for; else the one there was. */
  function ImageToRead(s: AgentState, c: Cycle): Option<Image>
  {
    if JoinedBy(s, Duty(c)).Some? then JoinedBy(s, Duty(c))
    else if AtAdapter(s, Duty(c)).Some? && c.adapterMessage.JoinLog? then None
    else s.image
  }

  /** From where the state was, nothing of it has been applied yet and the image to read is there. */
  ghost predicate ReadsFrom(s: AgentState, c: Cycle, u: AgentState)
  {
    && u.failure.None? && u.core == s.core && u.builder == s.builder && u.config == s.config
    && u.image == ImageToRead(s, c)
  }

  lemma TickReadsFrom(s: AgentState, c: Cycle)
    requires AtAdapter(s, Duty(c)).Some?
    requires var at := AtAdapter(s, Duty(c)).value;
             at.failure.None? && at.core == s.core && at.builder == s.builder && at.config == s.config
             && at.image == s.image
    ensures var ticked := PollServiceAdapter(AtAdapter(s, Duty(c)).value, c);
            ticked.failure.None? ==> ReadsFrom(s, c, ticked)
  {
    var at := AtAdapter(s, Duty(c)).value;
    var told, ticked := Told(at, c), PollServiceAdapter(at, c);
    ToldExactly(at, c);
    TicksExactly(at, c);
    JoinedByWhat(s, c);
    hide AtAdapter, Told, PollServiceAdapter, JoinActiveLog, JoinedBy, TryClaim, FoundOf;
    if told.failure.None? && WaitsToJoin(told) {
      JoinsExactly(told, c);
    }
  }

  lemma JoinedByWhat(s: AgentState, c: Cycle)
    requires AtAdapter(s, Duty(c)).Some?
    ensures var told := Told(AtAdapter(s, Duty(c)).value, c);
            JoinedBy(s, Duty(c)) ==
            if told.failure.None? && WaitsToJoin(told) && JoinActiveLog(told, c).1 then JoinActiveLog(told, c).0.image
            else None
  {
    hide AtAdapter, Told, JoinActiveLog;
  }

  lemma ReadyReadsFrom(s: AgentState, c: Cycle)
    requires BehindSnapshot(s, c).Some?
    ensures var ready := BehindSnapshot(s, c).value;
            ready.core == s.core && ready.builder == s.builder && ready.config == s.config && ready.image == s.image
  {
    if s.snapshot.Some? {
      WorksExactly(s, c.snapshot);
      hide SnapshotWork, WorkFailure, StateIsOut, ServicePartDone, Writes;
    }
  }

  /** Every cycle that no snapshot holds up and that does not fail reads the log, if there is an image, as far as
      a poll goes: it leaves nothing behind for a later cycle that it did not have to. */
  lemma CyclePollsLog(s: AgentState, c: Cycle) returns (u: AgentState)
    requires BehindSnapshot(s, c).Some? && DoWork(s, c).failure.None?
    ensures ReadsFrom(s, c, u) && DoWork(s, c) == PollLog(u, c)
    ensures u.image.Some? ==>
              var available := if c.imageClosed then 0 else c.available;
              var (read, n) := Poll(u, c.commitPosition, available, u.config.fragmentLimit, c.accepts);
              u.image.value.consumed + n <= |u.image.value.frames|
              && PolledTo(u, read, n, c.commitPosition, available, u.config.fragmentLimit, c.accepts)
  {
    CycleInParts(s, c);
    ReadyReadsFrom(s, c);
    var ready := BehindSnapshot(s, c).value;
    ClockExactly(ready, c);
    hide BehindSnapshot, DoWork, PollLog, Poll, CheckForClockTick, PollServiceAdapter, PolledTo;
    if AtAdapter(s, Duty(c)).Some? {
      hide AtAdapter;
      TickReadsFrom(s, c);
      u := PollServiceAdapter(AtAdapter(s, Duty(c)).value, c);
    } else {
      u := CheckForClockTick(ready, c).0;
    }
    if u.image.Some? {
      PollsExactly(u, c.commitPosition, if c.imageClosed then 0 else c.available, u.config.fragmentLimit, c.accepts);
    }
  }
}
