/** Polls of the snapshot loader cut into the single fragments they read. */
module LoaderSteps {
  import opened Aeron
  import opened SessionTable
  import opened ReplicatedState
  import opened Snapshots
  import opened AgentSpec
  import opened AgentSteps
  import opened Startup
  import opened Counters

  /** Polling from `now` with the fragments left comes to the same as the whole poll. */
  ghost predicate LoadsTo(before: Loading, now: Loading, available: nat, polled: nat)
    requires polled <= FRAGMENT_LIMIT
  {
    var rest := LoadPoll(now, FRAGMENT_LIMIT - polled, available);
    LoadPoll(before, FRAGMENT_LIMIT, available) == (rest.0, rest.1 + polled)
  }

  /** What one fragment does to a poll with fragments left. */
  lemma LoadPollsOne(now: Loading, limit: nat, available: nat)
    requires limit > 0 && now.cursor < available && now.cursor < |now.image|
    ensures var (next, action) := Consume(now);
            if action == THROWN then LoadPoll(now, limit, available) == (next, 0)
            else if action == BREAK then LoadPoll(now, limit, available) == (next, 1)
            else
              var (last, polled) := LoadPoll(next, limit - 1, available);
              LoadPoll(now, limit, available) == (last, polled + 1)
  {
    hide Consume;
  }

  lemma OneMoreLoaded(before: Loading, now: Loading, available: nat, polled: nat)
    requires polled < FRAGMENT_LIMIT && LoadsTo(before, now, available, polled)
    requires now.cursor < available && now.cursor < |now.image|
    ensures var (next, action) := Consume(now);
            if action == THROWN then LoadPoll(before, FRAGMENT_LIMIT, available) == (next, polled)
            else if action == BREAK then LoadPoll(before, FRAGMENT_LIMIT, available) == (next, polled + 1)
            else LoadsTo(before, next, available, polled + 1)
  {
    hide Consume, LoadPoll;
    LoadPollsOne(now, FRAGMENT_LIMIT - polled, available);
  }

  lemma LoadingEnds(before: Loading, now: Loading, available: nat, polled: nat)
    requires polled <= FRAGMENT_LIMIT && LoadsTo(before, now, available, polled)
    requires polled == FRAGMENT_LIMIT || now.cursor >= available || now.cursor >= |now.image|
    ensures LoadPoll(before, FRAGMENT_LIMIT, available) == (now, polled)
  {
  }

  /** The sessions among the messages of an image from `start` on, up to `end`. */
  function SessionsBetween(image: seq<SnapshotMessage>, start: nat, end: nat): seq<Session>
    requires start <= end <= |image|
  {
    SessionsIn(image[start..end])
  }

  /** The agent with the sessions read put into it. */
  ghost function Restoring(s: AgentState, table: Table, sessions: seq<Session>): AgentState
  {
    s.(core := s.core.(table := table), journal := s.journal + RestoredAll(sessions))
  }

  lemma NothingRead(s: AgentState, image: seq<SnapshotMessage>, start: nat)
    requires start <= |image|
    ensures Restoring(s, s.core.table, SessionsBetween(image, start, start)) == s
  {
    assert image[start..start] == [];
    assert s.journal + RestoredAll([]) == s.journal;
  }

  lemma OneMoreRead(s: AgentState, table: Table, image: seq<SnapshotMessage>, start: nat, cursor: nat, more: Table)
    requires start <= cursor < |image|
    ensures Restoring(Restoring(s, table, SessionsBetween(image, start, cursor)), more, SessionsIn([image[cursor]])) ==
            Restoring(s, more, SessionsBetween(image, start, cursor + 1))
  {
    hide RestoredAll, SessionsIn;
    assert image[start..cursor + 1] == image[start..cursor] + [image[cursor]];
    SessionsInAppend(image[start..cursor], [image[cursor]]);
    RestoredAppend(s.journal, SessionsIn(image[start..cursor]), SessionsIn([image[cursor]]));
  }

  lemma RestoredAppend(journal: seq<Note>, xs: seq<Session>, ys: seq<Session>)
    ensures journal + RestoredAll(xs + ys) == journal + RestoredAll(xs) + RestoredAll(ys)
  {
    assert RestoredAll(xs + ys) == RestoredAll(xs) + RestoredAll(ys);
  }

  lemma ReadOne(s: AgentState, m: SnapshotMessage)
    ensures Restoring(s, if m.ClientSessionRecord? then Add(s.core.table, m.session) else s.core.table,
                      SessionsIn([m])) ==
            if m.ClientSessionRecord? then WithTable(s, Add(s.core.table, m.session), Restored(m.session)) else s
  {
    hide Add;
    assert RestoredAll([]) == [] && s.journal + [] == s.journal;
    assert SessionsIn([m]) == if m.ClientSessionRecord? then [m.session] else [];
    if m.ClientSessionRecord? {
      assert RestoredAll([m.session]) == [Restored(m.session)];
    }
  }

  /** A poll of the loader under way: `polled` fragments have been read, and what they hold is in the agent. */
  ghost predicate LoadUnderway(before: Loading, agentBefore: AgentState, now: Loading, agentNow: AgentState,
                               available: nat, polled: nat)
    requires polled <= FRAGMENT_LIMIT
  {
    && LoadsTo(before, now, available, polled)
    && before.image == now.image && before.cursor <= now.cursor
    && agentNow == Restoring(agentBefore, now.table, SessionsBetween(now.image, before.cursor, now.cursor))
  }

  /** A poll of the loader that is over. */
  ghost predicate LoadPolled(before: Loading, agentBefore: AgentState, now: Loading, agentNow: AgentState,
                             available: nat, polled: nat)
  {
    && LoadPoll(before, FRAGMENT_LIMIT, available) == (now, polled)
    && before.image == now.image && before.cursor <= now.cursor
    && agentNow == Restoring(agentBefore, now.table, SessionsBetween(now.image, before.cursor, now.cursor))
  }

  lemma LoadPollStarts(before: Loading, agentBefore: AgentState, available: nat)
    requires agentBefore.core.table == before.table
    ensures LoadUnderway(before, agentBefore, before, agentBefore, available, 0)
  {
    LoadingStarts(before, available);
    NothingRead(agentBefore, before.image, before.cursor);
  }

  /** The agent once a fragment has been read. */
  ghost function AgentAfter(agentNow: AgentState, now: Loading): AgentState
    requires now.cursor < |now.image|
  {
    var (next, action) := Consume(now);
    if action == THROWN then agentNow else Restoring(agentNow, next.table, SessionsIn([now.image[now.cursor]]))
  }

  lemma PollsOneMore(before: Loading, agentBefore: AgentState, now: Loading, agentNow: AgentState, available: nat,
                     polled: nat)
    requires polled < FRAGMENT_LIMIT && now.cursor < available && now.cursor < |now.image|
    requires LoadUnderway(before, agentBefore, now, agentNow, available, polled)
    ensures var (next, action) := Consume(now);
            var agentNext := AgentAfter(agentNow, now);
            if action == THROWN then LoadPolled(before, agentBefore, next, agentNext, available, polled)
            else if action == BREAK then LoadPolled(before, agentBefore, next, agentNext, available, polled + 1)
            else LoadUnderway(before, agentBefore, next, agentNext, available, polled + 1)
  {
    hide Consume, LoadsTo, LoadPoll, Restoring, SessionsBetween, SessionsIn;
    ThrownReadsNothing(now);
    OneMoreLoaded(before, now, available, polled);
    var (next, action) := Consume(now);
    OneMoreRead(agentBefore, now.table, now.image, before.cursor, now.cursor, next.table);
  }

  lemma ThrownReadsNothing(now: Loading)
    requires now.cursor < |now.image|
    ensures Consume(now).1 == THROWN ==> Consume(now).0.table == now.table
  {
  }

  lemma LoadPollEnds(before: Loading, agentBefore: AgentState, now: Loading, agentNow: AgentState, available: nat,
                     polled: nat)
    requires polled <= FRAGMENT_LIMIT && LoadUnderway(before, agentBefore, now, agentNow, available, polled)
    requires polled == FRAGMENT_LIMIT || now.cursor >= available || now.cursor >= |now.image|
    ensures LoadPolled(before, agentBefore, now, agentNow, available, polled)
  {
    LoadingEnds(before, now, available, polled);
  }

  lemma LoadingStarts(before: Loading, available: nat)
    ensures LoadsTo(before, before, available, 0)
  {
  }

  /** The agent with the state of the recovery counter. */
  ghost function Recovered(s: Connecting, c: CountersReader): Connecting
  {
    s.(agent := s.agent.(core := RecoveredCore(s.agent.core, c, s.recoveryCounterId)))
  }

  /** Step 1 of a startup, piece by piece. */
  lemma TakenInParts(s: Connecting, m: Meeting)
    requires s.agent.failure.None?
    ensures var c := m.counters;
            var moved := Recovered(s, c);
            Startup.TakeRecoveryState(s, m) ==
            if GetLeadershipTermId(c, s.recoveryCounterId) == NULL_VALUE then moved.(step := 3)
            else
              match GetSnapshotRecordingId(c, s.recoveryCounterId, s.agent.config.serviceId)
              case RecordingId(_) =>
                if m.archiveRefuses then moved.(agent := moved.agent.(failure := Some(ArchiveRefused)))
                else moved.(step := 2)
              case InvalidServiceId => moved.(agent := moved.agent.(failure := Some(InvalidRecoveryService)))
              case NoActiveCounter => moved.(agent := moved.agent.(failure := Some(NoRecoveryCounter)))
  {
    hide GetLogPosition, GetTimestamp, GetLeadershipTermId, GetSnapshotRecordingId;
  }

  /** Step 2 of a startup in terms of the poll it makes, whichever loader it had before. */
  lemma LoaderPolls(s: Connecting, before: Loading, m: Meeting, now: Loading, agentNow: AgentState, polled: nat)
    requires LoadPolled(before, s.agent, now, agentNow, if m.imageClosed then 0 else m.available, polled)
    requires s.agent.failure.None?
    ensures var thrown := LoaderFailure(now, polled, m);
            Startup.PollLoader(s, before, m) == s.(loader := Some(now), agent := agentNow.(failure := thrown))
  {
    hide LoadPoll, SessionsIn, RestoredAll;
  }

  lemma LoaderIsGiven(s: Connecting, t: Connecting, l: Loading, m: Meeting)
    requires t == s.(loader := t.loader)
    ensures Startup.PollLoader(t, l, m) == Startup.PollLoader(s, l, m)
  {
    hide LoadPoll, SessionsIn, RestoredAll;
  }

  /** Step 2 of a startup, piece by piece. */
  lemma ReplayedInParts(s: Connecting, m: Meeting)
    ensures Startup.ReplaySnapshot(s, m) ==
            if !s.replayFound && !m.replayFound then s
            else if s.loader.None? && m.snapshotImage.None? then s.(replayFound := true)
            else
              var l := LoaderOf(s, m);
              var ready := s.(replayFound := true, loader := Some(l));
              if l.isDone then ready.(step := 3) else Startup.PollLoader(ready, l, m)
  {
    hide Startup.PollLoader;
    if s.loader.Some? || m.snapshotImage.Some? {
      LoaderIsGiven(s.(replayFound := true), s.(replayFound := true, loader := Some(LoaderOf(s, m))), LoaderOf(s, m),
                    m);
    }
  }
}
