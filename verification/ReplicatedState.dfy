/** The replicated state machine: what each event of the cluster log does to the state every
    replica must agree on, and what the service is told. */
module ReplicatedState {
  import opened Aeron
  import opened SessionTable

  datatype ClusterAction = SNAPSHOT | OTHER_ACTION(value: int)

  /** One decoded log message; OtherTemplate is a template the adapter does not dispatch, and
      OtherSchema a message of a foreign schema. */
  datatype Event =
    | SessionMessage(clusterSessionId: int, timestamp: int, body: Bytes)
    | TimerEvent(correlationId: int, timestamp: int)
    | SessionOpenEvent(leadershipTermId: int, clusterSessionId: int, timestamp: int,
                       responseStreamId: int, responseChannel: string, encodedPrincipal: Bytes)
    | SessionCloseEvent(leadershipTermId: int, clusterSessionId: int, timestamp: int, closeReason: int)
    | ClusterActionRequest(leadershipTermId: int, logPosition: int, timestamp: int, action: ClusterAction)
    | NewLeadershipTermEvent(leadershipTermId: int, logPosition: int, timestamp: int, termBaseLogPosition: int,
                             leaderMemberId: int, logSessionId: int, appVersion: int)
    | MembershipChangeEvent(logPosition: int, timestamp: int, quit: bool, memberId: int)
    | OtherTemplate
    | OtherSchema

  datatype Role = FOLLOWER | CANDIDATE | LEADER

  /** What the container calls on the clustered service. */
  datatype Callback =
    | OnStart(fromSnapshot: bool)
    | OnSessionOpen(session: Session, timestamp: int)
    | OnSessionMessage(session: Session, timestamp: int, body: Bytes)
    | OnSessionClose(session: Session, timestamp: int, closeReason: int)
    | OnTimerEvent(correlationId: int, timestamp: int)
    | OnNewLeadershipTermEvent(leadershipTermId: int, logPosition: int, timestamp: int, termBaseLogPosition: int,
                               leaderMemberId: int, logSessionId: int, appVersion: int)
    | OnRoleChange(role: Role)
    | OnTakeSnapshot

  datatype Failure =
    | ClashingOpen(id: int)
    | UnknownClose(id: int)
    | UnexpectedSchema
    | InvalidRole
    | PublicationState(result: int)
    | NotContiguousImage
    | NotContiguousEvent
    | AeronClosed
    | CommitPositionClosed
    | StillOffering     // not an exception: `offer` has not returned yet
    | UnexpectedSnapshotType
    | AlreadyInSnapshot
    | MissingBegin
    | SnapshotEnded
    | InvalidRecoveryService
    | NoRecoveryCounter
    | ArchiveRefused     // an error the archive answered

  /** The state every replica derives from the log alone. */
  datatype Core = Core(table: Table, logPosition: int, clusterTime: int, leadershipTermId: int)

  datatype Outcome = Outcome(core: Core, callbacks: seq<Callback>, failure: Option<Failure>)

  /** The container resizes the principal's buffer to its length but never copies the bytes. */
  function Blank(principal: Bytes): Bytes { seq(|principal|, _ => 0) }

  function OpenedSession(e: Event): Session
    requires e.SessionOpenEvent?
  {
    Session(e.clusterSessionId, e.responseStreamId, e.responseChannel, Blank(e.encodedPrincipal))
  }

  /** `BoundedLogAdapter::onMessage` and the agent's handler it dispatches to. The position and
      time are taken before anything is checked, so a failing event has moved them. */
  function Handle(core: Core, e: Event, position: int): Outcome
  {
    match e
    case SessionMessage(id, timestamp, body) =>
      var moved := core.(logPosition := position, clusterTime := timestamp);
      Outcome(moved,
              if id in core.table.byId then [OnSessionMessage(core.table.byId[id], timestamp, body)] else [],
              None)
    case TimerEvent(correlationId, timestamp) =>
      Outcome(core.(logPosition := position, clusterTime := timestamp), [OnTimerEvent(correlationId, timestamp)], None)
    case SessionOpenEvent(_, id, timestamp, _, _, _) =>
      var moved := core.(logPosition := position, clusterTime := timestamp);
      if id in core.table.byId then Outcome(moved, [], Some(ClashingOpen(id)))
      else
        var session := OpenedSession(e);
        Outcome(moved.(table := Add(core.table, session)), [OnSessionOpen(session, timestamp)], None)
    case SessionCloseEvent(_, id, timestamp, reason) =>
      var (rest, removed) := Remove(core.table, id);
      var moved := core.(logPosition := position, clusterTime := timestamp, table := rest);
      if removed.None? then Outcome(moved, [], Some(UnknownClose(id)))
      else Outcome(moved, [OnSessionClose(removed.value, timestamp, reason)], None)
    case ClusterActionRequest(_, logPosition, timestamp, _) =>
      Outcome(core.(logPosition := logPosition, clusterTime := timestamp), [], None)
    case NewLeadershipTermEvent(term, logPosition, timestamp, base, leader, logSession, appVersion) =>
      Outcome(core.(leadershipTermId := term, logPosition := logPosition, clusterTime := timestamp),
              [OnNewLeadershipTermEvent(term, logPosition, timestamp, base, leader, logSession, appVersion)], None)
    case MembershipChangeEvent(logPosition, timestamp, _, _) =>
      Outcome(core.(logPosition := logPosition, clusterTime := timestamp), [], None)
    case OtherTemplate => Outcome(core, [], None)
    case OtherSchema => Outcome(core, [], Some(UnexpectedSchema))
  }

  /** An event calls the service once at most, and never for a start, a role or a snapshot. */
  lemma HandleCallsOnce(core: Core, e: Event, position: int)
    ensures var callbacks := Handle(core, e, position).callbacks;
            && |callbacks| <= 1
            && forall k | 0 <= k < |callbacks| ::
                 !callbacks[k].OnRoleChange? && !callbacks[k].OnTakeSnapshot? && !callbacks[k].OnStart?
  {
    hide Add, Remove;
  }

  datatype Entry = Entry(event: Event, position: int)

  function Then(o: Outcome, e: Entry): Outcome
  {
    if o.failure.Some? then o
    else
      var next := Handle(o.core, e.event, e.position);
      Outcome(next.core, o.callbacks + next.callbacks, next.failure)
  }

  /** A log applied from the start; nothing is applied after a failure. */
  function Replay(core: Core, log: seq<Entry>): Outcome
  {
    if log == [] then Outcome(core, [], None)
    else Then(Replay(core, log[..|log| - 1]), log[|log| - 1])
  }

  /** Applying a log in two parts is applying it whole. */
  lemma {:induction false} ReplayAppends(core: Core, xs: seq<Entry>, ys: seq<Entry>)
    ensures var first := Replay(core, xs);
            var rest := Replay(first.core, ys);
            Replay(core, xs + ys) ==
            if first.failure.Some? then first
            else Outcome(rest.core, first.callbacks + rest.callbacks, rest.failure)
    decreases |ys|
  {
    hide Handle;
    if ys == [] {
      assert xs + ys == xs;
    } else {
      assert (xs + ys)[..|xs + ys| - 1] == xs + ys[..|ys| - 1];
      ReplayAppends(core, xs, ys[..|ys| - 1]);
    }
  }

  // ---- What a log means, read off the log itself ----

  predicate Opens(e: Event, id: int) { e.SessionOpenEvent? && e.clusterSessionId == id }

  predicate Closes(e: Event, id: int) { e.SessionCloseEvent? && e.clusterSessionId == id }

  predicate OpensAs(e: Event, s: Session) { Opens(e, s.id) && OpenedSession(e) == s }

  ghost predicate NoClose(log: seq<Entry>, from: nat, id: int)
  {
    forall j | from <= j < |log| :: !Closes(log[j].event, id)
  }

  /** The session `s` is open after the log: opened by it (or open before it), and not closed since. */
  ghost predicate OpenAfter(table: Table, log: seq<Entry>, s: Session)
  {
    || (Has(table, s) && NoClose(log, 0, s.id))
    || (exists i :: 0 <= i < |log| && OpensAs(log[i].event, s) && NoClose(log, i + 1, s.id))
  }

  ghost predicate SomeOpen(table: Table, log: seq<Entry>, id: int)
  {
    exists s: Session :: s.id == id && OpenAfter(table, log, s)
  }

  /** No event opens a session that is open, or closes one that is not, or has a foreign schema. */
  ghost predicate Lawful(table: Table, log: seq<Entry>)
  {
    forall n | 0 <= n < |log| ::
      var e := log[n].event;
      && !e.OtherSchema?
      && (e.SessionOpenEvent? ==> !SomeOpen(table, log[..n], e.clusterSessionId))
      && (e.SessionCloseEvent? ==> SomeOpen(table, log[..n], e.clusterSessionId))
  }

  ghost predicate TableIs(t: Table, table: Table, log: seq<Entry>)
  {
    forall s: Session :: Has(t, s) <==> OpenAfter(table, log, s)
  }

  lemma OpenAfterSnoc(table: Table, log: seq<Entry>, e: Entry, s: Session)
    ensures OpenAfter(table, log + [e], s) <==>
            || (OpenAfter(table, log, s) && !Closes(e.event, s.id))
            || OpensAs(e.event, s)
  {
    var more := log + [e];
    assert more[|log|] == e;
    forall from: nat | from <= |log|
      ensures NoClose(more, from, s.id) <==> NoClose(log, from, s.id) && !Closes(e.event, s.id)
    {
      assert forall j | 0 <= j < |log| :: more[j] == log[j];
    }
    if i :| 0 <= i < |log| && OpensAs(log[i].event, s) && NoClose(log, i + 1, s.id) && !Closes(e.event, s.id) {
      assert OpensAs(more[i].event, s) && NoClose(more, i + 1, s.id);
    }
    if OpensAs(e.event, s) {
      assert OpensAs(more[|log|].event, s) && NoClose(more, |log| + 1, s.id);
    }
    if i :| 0 <= i < |more| && OpensAs(more[i].event, s) && NoClose(more, i + 1, s.id) && i < |log| {
      assert OpensAs(log[i].event, s) && NoClose(log, i + 1, s.id);
    }
  }

  lemma LawfulSnoc(table: Table, log: seq<Entry>, e: Entry)
    ensures Lawful(table, log + [e]) <==>
            && Lawful(table, log) && !e.event.OtherSchema?
            && (e.event.SessionOpenEvent? ==> !SomeOpen(table, log, e.event.clusterSessionId))
            && (e.event.SessionCloseEvent? ==> SomeOpen(table, log, e.event.clusterSessionId))
  {
    var more := log + [e];
    assert more[|log|] == e && more[..|log|] == log;
    forall n | 0 <= n < |log| ensures more[n] == log[n] && more[..n] == log[..n] {}
  }

  lemma InTableIffSomeOpen(t: Table, table: Table, log: seq<Entry>, id: int)
    requires Agrees(t) && TableIs(t, table, log)
    ensures id in t.byId <==> SomeOpen(table, log, id)
  {
    if id in t.byId {
      assert Has(t, t.byId[id]);
      assert OpenAfter(table, log, t.byId[id]);
    }
    if SomeOpen(table, log, id) {
      var s: Session :| s.id == id && OpenAfter(table, log, s);
      assert Has(t, s);
    }
  }

  lemma HandleKeepsAgreement(core: Core, e: Event, position: int)
    requires Agrees(core.table)
    ensures Agrees(Handle(core, e, position).core.table)
    ensures Handle(core, e, position).failure.None? <==>
            && !e.OtherSchema?
            && (e.SessionOpenEvent? ==> e.clusterSessionId !in core.table.byId)
            && (e.SessionCloseEvent? ==> e.clusterSessionId in core.table.byId)
  {
    if e.SessionOpenEvent? {
      AddAgreesIffNew(core.table, OpenedSession(e));
    } else if e.SessionCloseEvent? {
      RemoveTakesOne(core.table, e.clusterSessionId);
    }
  }

  lemma HandleChangesTable(core: Core, e: Event, position: int, s: Session)
    requires Agrees(core.table) && Handle(core, e, position).failure.None?
    ensures Has(Handle(core, e, position).core.table, s) <==>
            (Has(core.table, s) && !Closes(e, s.id)) || OpensAs(e, s)
  {
    hide LowerBound, Put, Listed;
    if e.SessionCloseEvent? {
      RemoveTakesOne(core.table, e.clusterSessionId);
    }
  }

  lemma HandleKeepsMeaning(core: Core, table: Table, log: seq<Entry>, e: Entry)
    requires Agrees(core.table) && TableIs(core.table, table, log)
    requires Handle(core, e.event, e.position).failure.None?
    ensures TableIs(Handle(core, e.event, e.position).core.table, table, log + [e])
  {
    var t := Handle(core, e.event, e.position).core.table;
    forall s: Session ensures Has(t, s) <==> OpenAfter(table, log + [e], s) {
      OpenAfterSnoc(table, log, e, s);
      HandleChangesTable(core, e.event, e.position, s);
    }
  }

  /** Replaying succeeds if and only if the log is lawful; it keeps the table's two representations
      in agreement; and the sessions it leaves are exactly those the log itself leaves open. */
  lemma {:induction false} ReplayMeansTheLog(core: Core, log: seq<Entry>)
    requires Agrees(core.table)
    ensures var o := Replay(core, log);
            && (o.failure.None? <==> Lawful(core.table, log))
            && Agrees(o.core.table)
            && (o.failure.None? ==> TableIs(o.core.table, core.table, log))
    decreases |log|
  {
    if log != [] {
      var init, last := log[..|log| - 1], log[|log| - 1];
      assert log == init + [last];
      ReplayMeansTheLog(core, init);
      LawfulSnoc(core.table, init, last);
      var before := Replay(core, init);
      if before.failure.None? {
        HandleKeepsAgreement(before.core, last.event, last.position);
        if last.event.SessionOpenEvent? || last.event.SessionCloseEvent? {
          InTableIffSomeOpen(before.core.table, core.table, init, last.event.clusterSessionId);
        }
        if Replay(core, log).failure.None? {
          HandleKeepsMeaning(before.core, core.table, init, last);
        }
      }
    } else {
      forall s: Session ensures Has(core.table, s) <==> OpenAfter(core.table, log, s) {}
    }
  }

  /** The log is lawful up to event `n`, which is not, and why. */
  ghost predicate BreaksLaw(table: Table, log: seq<Entry>, n: nat, failure: Failure)
  {
    n < |log| && Lawful(table, log[..n]) &&
    var e := log[n].event;
    match failure
    case ClashingOpen(id) => Opens(e, id) && SomeOpen(table, log[..n], id)
    case UnknownClose(id) => Closes(e, id) && !SomeOpen(table, log[..n], id)
    case UnexpectedSchema => e.OtherSchema?
    case _ => false
  }

  lemma BreaksSnoc(table: Table, init: seq<Entry>, last: Entry, n: nat, failure: Failure)
    ensures n < |init| ==> (BreaksLaw(table, init + [last], n, failure) <==> BreaksLaw(table, init, n, failure))
    ensures n > |init| ==> !BreaksLaw(table, init + [last], n, failure)
  {
    hide Lawful, SomeOpen;
    if n < |init| {
      assert (init + [last])[..n] == init[..n] && (init + [last])[n] == init[n];
    }
  }

  lemma LastFails(core: Core, table: Table, init: seq<Entry>, last: Entry, failure: Failure)
    requires Agrees(core.table) && TableIs(core.table, table, init) && Lawful(table, init)
    ensures Handle(core, last.event, last.position).failure == Some(failure) <==>
            BreaksLaw(table, init + [last], |init|, failure)
  {
    var e := last.event;
    assert (init + [last])[..|init|] == init && (init + [last])[|init|] == last;
    if e.SessionOpenEvent? || e.SessionCloseEvent? {
      InTableIffSomeOpen(core.table, table, init, e.clusterSessionId);
    }
    if e.SessionCloseEvent? {
      RemoveTakesOne(core.table, e.clusterSessionId);
    }
    hide Lawful, SomeOpen, TableIs, Agrees, Add, Remove;
  }

  /** A replay fails if and only if some event is the first that breaks the law, and with the exception that says
      how: of the id that was open, or was not. */
  lemma {:induction false} ReplayFailsAs(core: Core, log: seq<Entry>, failure: Failure)
    requires Agrees(core.table)
    ensures Replay(core, log).failure == Some(failure) <==> exists n: nat :: BreaksLaw(core.table, log, n, failure)
    decreases |log|
  {
    if log != [] {
      var init, last := log[..|log| - 1], log[|log| - 1];
      assert log == init + [last];
      ReplayFailsAs(core, init, failure);
      ReplayMeansTheLog(core, init);
      forall n: nat
        ensures n < |init| ==> (BreaksLaw(core.table, log, n, failure) <==> BreaksLaw(core.table, init, n, failure))
        ensures n > |init| ==> !BreaksLaw(core.table, log, n, failure)
      {
        BreaksSnoc(core.table, init, last, n, failure);
      }
      if Replay(core, init).failure.None? {
        LastFails(Replay(core, init).core, core.table, init, last, failure);
        if BreaksLaw(core.table, log, |init|, failure) {
          assert Replay(core, log).failure == Some(failure);
        }
      } else {
        NotTheLast(core.table, init, last, failure);
      }
      hide BreaksLaw, Handle;
    }
  }

  lemma NotTheLast(table: Table, init: seq<Entry>, last: Entry, failure: Failure)
    requires !Lawful(table, init)
    ensures !BreaksLaw(table, init + [last], |init|, failure)
  {
    assert (init + [last])[..|init|] == init;
  }

  /** The position an event says the log has reached, if it is dispatched at all. */
  function Stamp(e: Entry): Option<int>
  {
    match e.event
    case OtherTemplate => None
    case OtherSchema => None
    case ClusterActionRequest(_, p, _, _) => Some(p)
    case NewLeadershipTermEvent(_, p, _, _, _, _, _) => Some(p)
    case MembershipChangeEvent(p, _, _, _) => Some(p)
    case _ => Some(e.position)
  }

  ghost predicate LastStamp(log: seq<Entry>, i: nat)
  {
    i < |log| && Stamp(log[i]).Some? && forall j | i < j < |log| :: Stamp(log[j]).None?
  }

  ghost predicate LastTerm(log: seq<Entry>, i: nat)
  {
    && i < |log| && log[i].event.NewLeadershipTermEvent?
    && forall j | i < j < |log| :: !log[j].event.NewLeadershipTermEvent?
  }

  /** After a successful replay, position and time are those of the last dispatched event, and the
      term that of the last new-term event. */
  lemma {:induction false} ReplayEndsAtLastEvent(core: Core, log: seq<Entry>, i: nat)
    requires Replay(core, log).failure.None?
    ensures LastStamp(log, i) ==>
              Replay(core, log).core.logPosition == Stamp(log[i]).value
              && Replay(core, log).core.clusterTime == log[i].event.timestamp
    ensures LastTerm(log, i) ==> Replay(core, log).core.leadershipTermId == log[i].event.leadershipTermId
    decreases |log|
  {
    if i < |log| - 1 {
      var init, last := log[..|log| - 1], log[|log| - 1];
      ReplayEndsAtLastEvent(core, init, i);
      assert LastStamp(log, i) ==> LastStamp(init, i) && Stamp(last).None?;
      assert LastTerm(log, i) ==> LastTerm(init, i) && !last.event.NewLeadershipTermEvent?;
    }
  }

  /** A log that dispatches nothing changes nothing. */
  lemma {:induction false} UndispatchedChangesNothing(core: Core, log: seq<Entry>)
    requires forall j | 0 <= j < |log| :: log[j].event.OtherTemplate?
    ensures Replay(core, log) == Outcome(core, [], None)
  {
    if log != [] {
      UndispatchedChangesNothing(core, log[..|log| - 1]);
    }
  }

  /** Equal but for the position reached. */
  predicate SameButPosition(o: Outcome, p: Outcome)
  {
    && o.callbacks == p.callbacks && o.failure == p.failure
    && o.core.table == p.core.table && o.core.clusterTime == p.core.clusterTime
    && o.core.leadershipTermId == p.core.leadershipTermId
  }

  lemma ThenIgnoresPosition(o: Outcome, p: Outcome, e: Entry)
    requires SameButPosition(o, p)
    ensures SameButPosition(Then(o, e), Then(p, e))
    ensures o.failure.None? && Stamp(e).Some? ==> Then(o, e).core.logPosition == Then(p, e).core.logPosition
  {
  }

  /** Where the state stood in the log before does not matter for what comes out of it. */
  lemma {:induction false} ReplayIgnoresPosition(core: Core, log: seq<Entry>, position: int)
    ensures SameButPosition(Replay(core, log), Replay(core.(logPosition := position), log))
    decreases |log|
  {
    if log != [] {
      var init := log[..|log| - 1];
      ReplayIgnoresPosition(core, init, position);
      ThenIgnoresPosition(Replay(core, init), Replay(core.(logPosition := position), init), log[|log| - 1]);
    }
  }

  // ---- What the service hears ----

  /** What the service is told of one event, in terms of the log before it: messages and closes come
      with the session the log has left open under their id, messages for no open session not at all. */
  ghost predicate HeardAs(table: Table, prefix: seq<Entry>, e: Event, told: seq<Callback>)
  {
    match e
    case SessionMessage(id, timestamp, body) =>
      if SomeOpen(table, prefix, id) then
        && |told| == 1 && told[0].OnSessionMessage?
        && told[0].session.id == id && OpenAfter(table, prefix, told[0].session)
        && told[0].timestamp == timestamp && told[0].body == body
      else told == []
    case SessionCloseEvent(_, id, timestamp, reason) =>
      && |told| == 1 && told[0].OnSessionClose?
      && told[0].session.id == id && OpenAfter(table, prefix, told[0].session)
      && told[0].timestamp == timestamp && told[0].closeReason == reason
    case SessionOpenEvent(_, id, timestamp, responseStreamId, responseChannel, principal) =>
      && |told| == 1 && told[0].OnSessionOpen? && told[0].timestamp == timestamp
      && told[0].session.id == id && told[0].session.responseStreamId == responseStreamId
      && told[0].session.responseChannel == responseChannel
      && |told[0].session.encodedPrincipal| == |principal|
      && forall k | 0 <= k < |principal| :: told[0].session.encodedPrincipal[k] == 0
    case TimerEvent(correlationId, timestamp) => told == [OnTimerEvent(correlationId, timestamp)]
    case NewLeadershipTermEvent(termId, position, timestamp, base, leader, session, version) =>
      told == [OnNewLeadershipTermEvent(termId, position, timestamp, base, leader, session, version)]
    case _ => told == []
  }

  /** The callbacks are those of the log's events, one after the other. */
  ghost predicate Hears(table: Table, log: seq<Entry>, told: seq<Callback>)
  {
    if |log| == 0 then told == []
    else
      var init := log[..|log| - 1];
      exists k | 0 <= k <= |told| ::
        Hears(table, init, told[..k]) && HeardAs(table, init, log[|log| - 1].event, told[k..])
  }

  lemma HandleIsHeard(core: Core, table: Table, log: seq<Entry>, e: Entry)
    requires Agrees(core.table) && TableIs(core.table, table, log)
    requires Handle(core, e.event, e.position).failure.None?
    ensures HeardAs(table, log, e.event, Handle(core, e.event, e.position).callbacks)
  {
    if e.event.SessionMessage? {
      InTableIffSomeOpen(core.table, table, log, e.event.clusterSessionId);
      assert e.event.clusterSessionId in core.table.byId ==> Has(core.table, core.table.byId[e.event.clusterSessionId]);
    } else if e.event.SessionCloseEvent? {
      RemoveTakesOne(core.table, e.event.clusterSessionId);
      assert Has(core.table, core.table.byId[e.event.clusterSessionId]);
    }
  }

  /** Over a lawful log the service hears of every event what it should, and of nothing else. */
  lemma {:induction false} ServiceHearsTheLog(core: Core, log: seq<Entry>)
    requires Agrees(core.table) && Lawful(core.table, log)
    ensures Hears(core.table, log, Replay(core, log).callbacks)
    decreases |log|
  {
    hide HeardAs, Handle, Agrees, Lawful, TableIs;
    if log != [] {
      var init, last := log[..|log| - 1], log[|log| - 1];
      assert log == init + [last];
      LawfulSnoc(core.table, init, last);
      ServiceHearsTheLog(core, init);
      ReplayMeansTheLog(core, init);
      ReplayMeansTheLog(core, log);
      var before := Replay(core, init);
      HandleIsHeard(before.core, core.table, init, last);
      var told, more := before.callbacks, Handle(before.core, last.event, last.position).callbacks;
      assert Replay(core, log).callbacks == told + more;
      assert (told + more)[..|told|] == told && (told + more)[|told|..] == more;
    }
  }
}
