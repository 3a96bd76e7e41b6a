/** What a recovered agent is worth: its snapshot and the log behind it stand for the whole log. */
module Recovery {
  import opened Aeron
  import opened SessionTable
  import opened ReplicatedState
  import opened Publications
  import opened Snapshots
  import opened AgentSpec
  import opened Journals
  import opened AckNumbers
  import opened Invariants
  import opened PendingAcks
  import opened LogViews
  import opened Tracking
  import opened Contiguity
  import opened LogFailures
  import opened Counters
  import opened Startup
  import opened StartupProofs

  // ---- The restored sessions ----

  lemma {:induction false} AddAllSplit(t: Table, xs: seq<Session>, ys: seq<Session>)
    ensures AddAll(t, xs + ys) == AddAll(AddAll(t, xs), ys)
    decreases |xs|
  {
    if xs == [] {
      assert xs + ys == ys;
    } else {
      assert (xs + ys)[1..] == xs[1..] + ys;
      AddAllSplit(Add(t, xs[0]), xs[1..], ys);
    }
  }

  lemma AllNewSplit(t: Table, xs: seq<Session>, ys: seq<Session>)
    requires Agrees(t) && AllNew(t, xs + ys)
    ensures AllNew(t, xs) && AllNew(AddAll(t, xs), ys)
  {
    hide Agrees;
    assert forall i | 0 <= i < |xs| :: (xs + ys)[i] == xs[i];
    AddAllAgreesIffNew(t, xs);
    AddAllAgreesIffNew(t, xs + ys);
    AddAllSplit(t, xs, ys);
    AddAllAgreesIffNew(AddAll(t, xs), ys);
  }

  lemma {:induction false} PollAdds(l: Loading, limit: nat, available: nat)
    requires !l.isDone && l.failure.None?
    ensures var r := LoadPoll(l, limit, available).0;
            r.table == AddAll(l.table, SessionsIn(l.image[l.cursor..r.cursor]))
    decreases limit
  {
    hide Consume, AddAll, SessionsIn;
    var r := LoadPoll(l, limit, available).0;
    NoneAdded(l.table);
    assert l.image[l.cursor..l.cursor] == [];
    if limit != 0 && l.cursor < available && l.cursor < |l.image| {
      var (next, action) := Consume(l);
      var one := [l.image[l.cursor]];
      ConsumeAdds(l);
      if action == BREAK {
        assert l.image[l.cursor..r.cursor] == one;
      } else if action != THROWN {
        PollAdds(next, limit - 1, available);
        var rest := l.image[next.cursor..r.cursor];
        assert l.image[l.cursor..r.cursor] == one + rest;
        SessionsInAppend(one, rest);
        AddAllSplit(l.table, SessionsIn(one), SessionsIn(rest));
      }
    }
  }

  lemma NoneAdded(t: Table)
    ensures AddAll(t, SessionsIn([])) == t
  {
  }

  lemma ConsumeAdds(l: Loading)
    requires l.cursor < |l.image|
    ensures Consume(l).0.table ==
            if Consume(l).1 == THROWN then l.table else AddAll(l.table, SessionsIn([l.image[l.cursor]]))
    ensures Consume(l).1 != BREAK ==> Consume(l).0.isDone == l.isDone
  {
  }

  lemma RestoreKeeps(s: AgentState, t: AgentState, session: Session)
    requires Sound(s) && session.id !in s.core.table.byId
    requires t == s.(core := s.core.(table := Add(s.core.table, session)), journal := s.journal + [Restored(session)])
    ensures Sound(t)
  {
    hide Agrees, LowerBound, Put;
    Snoc(s.journal, Restored(session));
    AddAgreesIffNew(s.core.table, session);
  }

  function WithSessions(s: AgentState, sessions: seq<Session>): AgentState
  {
    s.(core := s.core.(table := AddAll(s.core.table, sessions)), journal := s.journal + RestoredAll(sessions))
  }

  lemma {:induction false} RestoreAllKeeps(s: AgentState, sessions: seq<Session>)
    requires Sound(s) && AllNew(s.core.table, sessions)
    ensures Sound(WithSessions(s, sessions))
    decreases |sessions|
  {
    hide Sound, Agrees, AllNew, Add, WithSessions;
    if sessions == [] {
      NoSessionsRestored(s);
    } else {
      var first, rest := sessions[0], sessions[1..];
      assert sessions == [first] + rest;
      FirstIsNew(s, first, rest);
      RestoreKeeps(s, WithOne(s, first), first);
      RestoreAllKeeps(WithOne(s, first), rest);
      OneThenRest(s, first, rest);
    }
  }

  function WithOne(s: AgentState, session: Session): AgentState
  {
    s.(core := s.core.(table := Add(s.core.table, session)), journal := s.journal + [Restored(session)])
  }

  lemma NoSessionsRestored(s: AgentState)
    ensures WithSessions(s, []) == s
  {
    assert s.journal + RestoredAll([]) == s.journal;
  }

  lemma OneThenRest(s: AgentState, first: Session, rest: seq<Session>)
    ensures WithSessions(WithOne(s, first), rest) == WithSessions(s, [first] + rest)
  {
    hide AddAll, Add, RestoredAll;
    FirstAdded(s.core.table, first, rest);
    FirstRestored(s.journal, first, rest);
  }

  lemma FirstAdded(t: Table, first: Session, rest: seq<Session>)
    ensures AddAll(t, [first] + rest) == AddAll(Add(t, first), rest)
  {
    hide Add;
    assert ([first] + rest)[1..] == rest;
  }

  lemma FirstRestored(journal: seq<Note>, first: Session, rest: seq<Session>)
    ensures journal + RestoredAll([first] + rest) == (journal + [Restored(first)]) + RestoredAll(rest)
  {
    assert RestoredAll([first] + rest) == [Restored(first)] + RestoredAll(rest);
  }

  lemma FirstIsNew(s: AgentState, first: Session, rest: seq<Session>)
    requires Sound(s) && AllNew(s.core.table, [first] + rest)
    ensures first.id !in s.core.table.byId && AllNew(Add(s.core.table, first), rest)
  {
    AllNewSplit(s.core.table, [first], rest);
    assert ([first] + rest)[0] == first;
  }

  /** The sessions the loader has read so far. */
  function ReadSessions(s: Connecting): seq<Session>
  {
    if s.loader.None? then [] else SessionsIn(s.loader.value.image[..s.loader.value.cursor])
  }

  ghost predicate Rebuilt(s: Connecting)
  {
    && s.agent.core.table == AddAll(NO_SESSIONS, ReadSessions(s))
    && (AllNew(NO_SESSIONS, ReadSessions(s)) ==> Sound(s.agent))
  }

  lemma SameSessionsRebuilt(s: Connecting, t: Connecting)
    requires Rebuilt(s) && ReadSessions(t) == ReadSessions(s)
    requires t.agent.core.table == s.agent.core.table && (Sound(s.agent) ==> Sound(t.agent))
    ensures Rebuilt(t)
  {
  }

  lemma LoaderReads(s: Connecting, l: Loading, m: Meeting)
    ensures var read := LoadPoll(l, FRAGMENT_LIMIT, if m.imageClosed then 0 else m.available).0;
            var t := PollLoader(s, l, m);
            && t.loader == Some(read) && t.agent.core.table == read.table
            && (read.table == AddAll(s.agent.core.table, SessionsIn(l.image[l.cursor..read.cursor])) ==>
                  t.agent ==
                  WithSessions(s.agent, SessionsIn(l.image[l.cursor..read.cursor])).(failure := t.agent.failure))
  {
    hide LoadPoll, SessionsIn, AddAll, RestoredAll;
  }

  lemma LoaderRebuilds(s: Connecting, l: Loading, m: Meeting)
    requires Rebuilt(s) && s.agent.core.table == l.table && !l.isDone && l.failure.None?
    requires ReadSessions(s) == SessionsIn(l.image[..l.cursor])
    ensures Rebuilt(PollLoader(s, l, m))
  {
    hide Sound, LoadPoll, SessionsIn, AddAll, AllNew, PollLoader, WithSessions;
    var available := if m.imageClosed then 0 else m.available;
    var read := LoadPoll(l, FRAGMENT_LIMIT, available).0;
    var before, more := l.image[..l.cursor], l.image[l.cursor..read.cursor];
    PollAdds(l, FRAGMENT_LIMIT, available);
    LoaderReads(s, l, m);
    assert before + more == l.image[..read.cursor];
    SessionsInAppend(before, more);
    AddAllSplit(NO_SESSIONS, SessionsIn(before), SessionsIn(more));
    if AllNew(NO_SESSIONS, SessionsIn(before) + SessionsIn(more)) {
      AllNewSplit(NO_SESSIONS, SessionsIn(before), SessionsIn(more));
      RestoreAllKeeps(s.agent, SessionsIn(more));
      FailureKeeps(WithSessions(s.agent, SessionsIn(more)), PollLoader(s, l, m).agent);
    }
  }

  lemma FailureKeeps(s: AgentState, t: AgentState)
    requires Sound(s) && t == s.(failure := t.failure)
    ensures Sound(t)
  {
  }

  lemma CoreKeeps(s: AgentState, t: AgentState)
    requires t == s.(core := t.core, failure := t.failure) && t.core.table == s.core.table
    ensures Sound(s) ==> Sound(t)
  {
  }

  lemma TakeMovesCore(s: Connecting, m: Meeting)
    ensures var t := TakeRecoveryState(s, m);
            && t.loader == s.loader && t.agent == s.agent.(core := t.agent.core, failure := t.agent.failure)
            && t.agent.core.table == s.agent.core.table
  {
    hide GetLogPosition, GetTimestamp, GetLeadershipTermId, RecordingFailure;
  }

  lemma TakeRebuilds(s: Connecting, m: Meeting)
    requires Rebuilt(s)
    ensures Rebuilt(TakeRecoveryState(s.(step := 1), m))
  {
    hide Sound, TakeRecoveryState, Rebuilt, SessionsIn;
    TakeMovesCore(s.(step := 1), m);
    var t := TakeRecoveryState(s.(step := 1), m);
    CoreKeeps(s.agent, t.agent);
    SameSessionsRebuilt(s, t);
  }

  lemma ReplayRebuilds(s: Connecting, m: Meeting)
    requires Rebuilt(s) && Loads(s) && s.step == 2 && s.agent.failure.None?
    ensures Rebuilt(ReplaySnapshot(s, m))
  {
    hide Sound, PollLoader, Rebuilt;
    var found := s.(replayFound := true);
    SameSessionsRebuilt(s, found);
    if s.replayFound || m.replayFound {
      if found.loader.Some? || m.snapshotImage.Some? {
        var l := LoaderOf(found, m);
        if l.isDone {
          SameSessionsRebuilt(s, found.(step := 3));
        } else {
          assert l.image[..0] == [];
          LoaderRebuilds(found, l, m);
        }
      }
    }
  }

  lemma CallKeeps(s: Connecting, m: Meeting)
    ensures Sound(s.agent) ==> Sound(StartService(s, m).agent)
  {
    hide Sound;
    if Sound(s.agent) {
      AsideKeeps(s.agent, StartService(s, m).agent, Called(OnStart(s.loader.Some?)));
    }
  }

  lemma AckInv(s: Connecting, m: Meeting)
    ensures Sound(s.agent) ==> Sound(AckStart(s, m).agent)
  {
    hide Sound;
    if Sound(s.agent) {
      SendAckKeeps(s.agent, s.clientId, m.ackClaims);
    }
  }

  lemma CloseInv(s: AgentState, id: int, inLifecycleCallback: bool, results: seq<int>)
    ensures Sound(s) ==> Sound(CloseClientSession(s, id, inLifecycleCallback, results).0)
    ensures CloseClientSession(s, id, inLifecycleCallback, results).0.core == s.core
  {
    hide Sound;
    if Sound(s) {
      CloseClientSessionKeeps(s, id, inLifecycleCallback, results);
    }
  }

  lemma ResolvedRebuilds(s: Connecting, m: Meeting)
    requires Rebuilt(s)
    ensures Rebuilt(Resolve(s, m))
  {
    hide Sound, Rebuilt, Search, SessionsIn;
    SameSessionsRebuilt(s, Resolve(s, m));
  }

  lemma CalledRebuilds(s: Connecting, m: Meeting)
    requires Rebuilt(s)
    ensures Rebuilt(StartService(s, m)) && Rebuilt(AckStart(s, m))
  {
    hide Sound, Rebuilt, TryClaim, SessionsIn;
    CallKeeps(s, m);
    SameSessionsRebuilt(s, StartService(s, m));
    AckInv(s, m);
    SameSessionsRebuilt(s, AckStart(s, m));
  }

  lemma StepRebuilds(s: Connecting, a: Attempt)
    requires Rebuilt(s) && Loads(s) && s.step <= 4
    ensures Rebuilt(ConnectStep(s, a))
  {
    hide Sound, Rebuilt, Search, TakeRecoveryState, ReplaySnapshot, StartService, AckStart, CloseClientSession,
         SessionsIn;
    match a
    case Polled(m) =>
      var r := Resolve(s, m);
      ResolvedRebuilds(s, m);
      if s.agent.failure.None? {
        if r.step <= 1 {
          TakeRebuilds(r, m);
        } else if r.step == 2 {
          ReplayRebuilds(r, m);
        } else {
          CalledRebuilds(r, m);
        }
      }
    case CloseAsked(id, inLifecycleCallback, results) =>
      CloseInv(s.agent, id, inLifecycleCallback, results);
      SameSessionsRebuilt(s, s.(agent := CloseClientSession(s.agent, id, inLifecycleCallback, results).0));
  }

  lemma NewIsRebuilt(s: Connecting)
    requires IsNew(s)
    ensures Rebuilt(s)
  {
    FreshAgent(s.agent);
  }

  lemma {:induction false} ConnectRebuilds(s: Connecting, attempts: seq<Attempt>)
    requires IsNew(s)
    ensures Rebuilt(Connect(s, attempts))
    decreases |attempts|
  {
    hide Rebuilt, ConnectStep;
    if |attempts| > 0 {
      ConnectRebuilds(s, attempts[..|attempts| - 1]);
      ConnectKeeps(s, attempts[..|attempts| - 1]);
      StepRebuilds(Connect(s, attempts[..|attempts| - 1]), attempts[|attempts| - 1]);
    } else {
      NewIsRebuilt(s);
    }
  }

  lemma StartNumbers(s: Connecting)
    requires AcksAreReturns(s) && StartNotes(s)
    ensures AcksCounted(s.agent) && TicksApart(s.agent)
  {
    hide Acks, Ticks;
    NoTicksYet(s.agent.journal);
  }

  lemma {:induction false} NoTicksYet(journal: seq<Note>)
    requires forall k | 0 <= k < |journal| :: IsStartNote(journal[k])
    ensures Ticks(journal) == []
  {
    if journal != [] {
      NoTicksYet(journal[..|journal| - 1]);
    }
  }

  /** A startup numbers its acks without a gap, and polls no service adapter. */
  lemma StartupNumbers(s: Connecting, attempts: seq<Attempt>)
    requires IsNew(s)
    ensures Numbered(Connect(s, attempts).agent)
  {
    hide Connect, Acks, Ticks;
    ConnectKeeps(s, attempts);
    NotesKept(s, attempts);
    hide StartInv;
    StartNumbers(Connect(s, attempts));
  }

  /** However far a startup has come, the agent has the invariant that every run keeps if and only if
      no two sessions read from the snapshot have the same id: the loader does not check. */
  lemma SoundIffDistinct(s: Connecting, attempts: seq<Attempt>)
    requires IsNew(s)
    ensures Inv(Connect(s, attempts).agent) <==> AllNew(NO_SESSIONS, ReadSessions(Connect(s, attempts)))
    ensures Agrees(Connect(s, attempts).agent.core.table) <==> AllNew(NO_SESSIONS, ReadSessions(Connect(s, attempts)))
  {
    ConnectRebuilds(s, attempts);
    StartupNumbers(s, attempts);
    AddAllAgreesIffNew(NO_SESSIONS, ReadSessions(Connect(s, attempts)));
  }

  // ---- Snapshot and suffix ----

  /** What a startup is to recover from: the recovery counter, the core it stands for, and the snapshot. */
  datatype RecoveryRecord = RecoveryRecord(counterId: int, core: Core, snapshot: seq<SnapshotMessage>)

  predicate Finds(r: RecoveryRecord, clusterId: int, a: Attempt)
  {
    a.Polled? && Search(a.meeting.counters, WantedRecovery(clusterId), 0) == r.counterId
  }

  /** The key of the counter has the position, the time and the term of the core. */
  predicate Reads(r: RecoveryRecord, a: Attempt)
  {
    a.Polled? ==>
      var c := a.meeting.counters;
      && GetLogPosition(c, r.counterId) == r.core.logPosition
      && GetTimestamp(c, r.counterId) == r.core.clusterTime
      && GetLeadershipTermId(c, r.counterId) == r.core.leadershipTermId
  }

  /** In a poll the search finds that recovery counter or none yet, and the only image there is to find is
      the snapshot. */
  predicate ShowsIn(r: RecoveryRecord, clusterId: int, a: Attempt)
  {
    a.Polled? ==>
      && Search(a.meeting.counters, WantedRecovery(clusterId), 0) in {NULL_COUNTER_ID, r.counterId}
      && (a.meeting.snapshotImage.Some? ==> a.meeting.snapshotImage.value == r.snapshot)
  }

  /** A startup sees the record: no poll finds anything else; and from the poll on in which the counter is
      first found, its key can be read. Before that there may be any number of polls that find nothing. */
  ghost predicate Shows(r: RecoveryRecord, clusterId: int, attempts: seq<Attempt>)
  {
    && r.counterId != NULL_COUNTER_ID
    && (forall i | 0 <= i < |attempts| :: ShowsIn(r, clusterId, attempts[i]))
    && (forall i, j | 0 <= i <= j < |attempts| && Finds(r, clusterId, attempts[i]) :: Reads(r, attempts[j]))
  }

  ghost predicate FoundBy(r: RecoveryRecord, clusterId: int, attempts: seq<Attempt>)
  {
    exists i :: 0 <= i < |attempts| && Finds(r, clusterId, attempts[i])
  }

  lemma ShowsSnoc(r: RecoveryRecord, clusterId: int, attempts: seq<Attempt>, a: Attempt)
    requires Shows(r, clusterId, attempts + [a])
    ensures Shows(r, clusterId, attempts) && ShowsIn(r, clusterId, a)
    ensures FoundBy(r, clusterId, attempts + [a]) <==> FoundBy(r, clusterId, attempts) || Finds(r, clusterId, a)
    ensures FoundBy(r, clusterId, attempts + [a]) ==> Reads(r, a)
  {
    hide ShowsIn, Finds, Reads;
    var all := attempts + [a];
    assert all[|attempts|] == a && forall i | 0 <= i < |attempts| :: all[i] == attempts[i];
  }

  /** Polls before there is a counter, or a snapshot to find, are part of a startup that sees the record. */
  lemma EarlyPollsShow(r: RecoveryRecord, clusterId: int, early: seq<Attempt>, attempts: seq<Attempt>)
    requires Shows(r, clusterId, attempts)
    requires forall i | 0 <= i < |early| :: early[i].Polled? ==>
               && Search(early[i].meeting.counters, WantedRecovery(clusterId), 0) == NULL_COUNTER_ID
               && early[i].meeting.snapshotImage.None?
    ensures Shows(r, clusterId, early + attempts)
  {
    hide Search, Reads;
    var all := early + attempts;
    forall i | 0 <= i < |all| ensures ShowsIn(r, clusterId, all[i]) {
      assert i >= |early| ==> all[i] == attempts[i - |early|];
    }
    forall i, j | 0 <= i <= j < |all| && Finds(r, clusterId, all[i]) ensures Reads(r, all[j]) {
      assert all[i] == attempts[i - |early|] && all[j] == attempts[j - |early|];
    }
  }

  ghost predicate OnRecord(s: Connecting, r: RecoveryRecord)
  {
    && (s.recoveryCounterId == NULL_COUNTER_ID || s.recoveryCounterId == r.counterId)
    && r.counterId != NULL_COUNTER_ID
    && (s.agent.failure.None? ==> s.step != 1)
    && (s.step >= 2 ==>
          && s.agent.core.logPosition == r.core.logPosition && s.agent.core.clusterTime == r.core.clusterTime
          && s.agent.core.leadershipTermId == r.core.leadershipTermId)
    && (s.loader.Some? ==> s.loader.value.image == r.snapshot)
  }

  /** The core but for the table, the image and the counter are as before. */
  ghost predicate SameRecord(s: Connecting, t: Connecting)
  {
    && t.recoveryCounterId == s.recoveryCounterId && t.clusterId == s.clusterId
    && t.agent.core.(table := s.agent.core.table) == s.agent.core
    && (t.loader.Some? && s.loader.Some? ==> t.loader.value.image == s.loader.value.image)
    && (t.agent.failure.None? ==> s.agent.failure.None?)
  }

  lemma LoaderSameRecord(s: Connecting, l: Loading, m: Meeting)
    requires s.loader.Some? ==> l.image == s.loader.value.image
    ensures var t := PollLoader(s, l, m);
            SameRecord(s, t) && t.step == s.step && t.loader.Some? && t.loader.value.image == l.image
  {
    hide LoadPoll, SessionsIn, RestoredAll;
  }

  lemma ReplayOnRecord(s: Connecting, m: Meeting, r: RecoveryRecord)
    requires OnRecord(s, r) && s.step == 2 && s.agent.failure.None? && ShowsIn(r, s.clusterId, Polled(m))
    ensures OnRecord(ReplaySnapshot(s, m), r) && ReplaySnapshot(s, m).clusterId == s.clusterId
  {
    hide PollLoader, Search, GetLogPosition, GetTimestamp, GetLeadershipTermId;
    var found := s.(replayFound := true);
    if (s.replayFound || m.replayFound) && (found.loader.Some? || m.snapshotImage.Some?) {
      LoaderSameRecord(found, LoaderOf(found, m), m);
    }
  }

  lemma TakeOnRecord(s: Connecting, m: Meeting, r: RecoveryRecord)
    requires OnRecord(s, r) && s.step == 0 && s.recoveryCounterId == r.counterId && s.loader.None?
    requires Reads(r, Polled(m))
    ensures OnRecord(TakeRecoveryState(s.(step := 1), m), r)
    ensures TakeRecoveryState(s.(step := 1), m).clusterId == s.clusterId
  {
    hide Search, GetLogPosition, GetTimestamp, GetLeadershipTermId, RecordingFailure;
  }

  lemma SentOnRecord(s: Connecting, t: Connecting, r: RecoveryRecord)
    requires OnRecord(s, r) && SameRecord(s, t) && t.loader == s.loader && (t.step == s.step || t.step == 4)
    requires s.step >= 3
    ensures OnRecord(t, r)
  {
  }

  lemma ResolvedOnRecord(s: Connecting, m: Meeting, r: RecoveryRecord)
    requires OnRecord(s, r) && ShowsIn(r, s.clusterId, Polled(m))
    ensures OnRecord(Resolve(s, m), r)
    ensures Resolve(s, m).recoveryCounterId in {NULL_COUNTER_ID, r.counterId}
    ensures Resolve(s, m).recoveryCounterId == r.counterId ==>
              s.recoveryCounterId == r.counterId || Finds(r, s.clusterId, Polled(m))
  {
    hide Search, GetLogPosition, GetTimestamp, GetLeadershipTermId;
  }

  lemma CalledOnRecord(s: Connecting, m: Meeting, r: RecoveryRecord)
    requires OnRecord(s, r)
    ensures s.step == 3 ==> OnRecord(StartService(s, m), r) && StartService(s, m).clusterId == s.clusterId
    ensures s.step == 4 && s.agent.failure.None? ==>
            OnRecord(AckStart(s, m), r) && AckStart(s, m).clusterId == s.clusterId
  {
    hide TryClaim;
    if s.step == 3 {
      SentOnRecord(s, StartService(s, m), r);
    } else if s.step == 4 && s.agent.failure.None? {
      SentOnRecord(s, AckStart(s, m), r);
    }
  }

  lemma CloseOnRecord(s: Connecting, a: Attempt, r: RecoveryRecord)
    requires OnRecord(s, r) && a.CloseAsked?
    ensures OnRecord(ConnectStep(s, a), r) && ConnectStep(s, a).clusterId == s.clusterId
  {
    hide TryClaim;
  }

  lemma UnloadedBefore2(s: Connecting)
    requires Loads(s) && s.step < 2
    ensures s.loader.None?
  {
  }

  lemma OffStep1(s: Connecting, r: RecoveryRecord)
    requires OnRecord(s, r) && s.agent.failure.None?
    ensures s.step != 1
  {
  }

  lemma PolledKeepsCounter(s: Connecting, m: Meeting)
    ensures TakeRecoveryState(s, m).recoveryCounterId == s.recoveryCounterId
    ensures ReplaySnapshot(s, m).recoveryCounterId == s.recoveryCounterId
    ensures StartService(s, m).recoveryCounterId == s.recoveryCounterId
    ensures AckStart(s, m).recoveryCounterId == s.recoveryCounterId
  {
    hide Search, GetLogPosition, GetTimestamp, GetLeadershipTermId, RecordingFailure, LoadPoll, SessionsIn, TryClaim;
  }

  lemma StepFindsCounter(s: Connecting, a: Attempt, r: RecoveryRecord)
    requires OnRecord(s, r) && ShowsIn(r, s.clusterId, a)
    ensures ConnectStep(s, a).recoveryCounterId == r.counterId ==>
              s.recoveryCounterId == r.counterId || Finds(r, s.clusterId, a)
  {
    hide Search, TakeRecoveryState, ReplaySnapshot, StartService, AckStart, OnRecord, ShowsIn, Finds;
    if a.Polled? {
      var resolved := Resolve(s, a.meeting);
      ResolvedOnRecord(s, a.meeting, r);
      PolledKeepsCounter(resolved, a.meeting);
      PolledKeepsCounter(resolved.(step := 1), a.meeting);
    }
  }

  lemma StepOnRecord(s: Connecting, a: Attempt, r: RecoveryRecord)
    requires OnRecord(s, r) && s.step <= 4 && Loads(s) && ShowsIn(r, s.clusterId, a)
    requires s.recoveryCounterId == r.counterId || Finds(r, s.clusterId, a) ==> Reads(r, a)
    ensures OnRecord(ConnectStep(s, a), r) && ConnectStep(s, a).clusterId == s.clusterId
  {
    hide Search, TakeRecoveryState, ReplaySnapshot, StartService, AckStart, OnRecord, Loads, ShowsIn, Finds, Reads;
    match a
    case Polled(m) =>
      if s.agent.failure.None? {
        var resolved := Resolve(s, m);
        OffStep1(s, r);
        ResolvedOnRecord(s, m, r);
        if s.step == 0 && AllResolved(resolved) {
          UnloadedBefore2(s);
          TakeOnRecord(resolved, m, r);
        } else if s.step == 2 {
          ReplayOnRecord(resolved, m, r);
        } else {
          CalledOnRecord(resolved, m, r);
        }
      }
    case CloseAsked(id, inLifecycleCallback, results) =>
      CloseOnRecord(s, a, r);
  }

  lemma {:induction false} ConnectOnRecord(s: Connecting, attempts: seq<Attempt>, r: RecoveryRecord)
    requires IsNew(s) && Shows(r, s.clusterId, attempts)
    ensures OnRecord(Connect(s, attempts), r) && Connect(s, attempts).clusterId == s.clusterId
    ensures Connect(s, attempts).recoveryCounterId == r.counterId ==> FoundBy(r, s.clusterId, attempts)
    decreases |attempts|
  {
    if |attempts| > 0 {
      hide ConnectStep, Shows, ShowsIn, Finds, Reads, FoundBy, OnRecord;
      var init, last := attempts[..|attempts| - 1], attempts[|attempts| - 1];
      assert attempts == init + [last];
      ShowsSnoc(r, s.clusterId, init, last);
      ConnectOnRecord(s, init, r);
      ConnectKeeps(s, init);
      StepOnRecord(Connect(s, init), last, r);
      StepFindsCounter(Connect(s, init), last, r);
    }
  }

  /** The record of a core: its snapshot, as the agent writes it, with whatever the service wrote behind. */
  ghost predicate IsRecordOf(r: RecoveryRecord, core: Core, appVersion: int, tail: seq<SnapshotMessage>)
  {
    && r.core == core
    && r.snapshot == SnapshotOf(core.table.sessions, core.logPosition, core.leadershipTermId, appVersion) + tail
  }

  /** A startup that came as far as its service has the core it was to recover if and only if that had
      a leadership term, or no sessions: without a term the snapshot is not looked at. What the
      service wrote behind the snapshot is still there to be read. */
  lemma RecoversIffTermOrEmpty(s: Connecting, attempts: seq<Attempt>, r: RecoveryRecord, core: Core, appVersion: int,
                               tail: seq<SnapshotMessage>)
    requires IsNew(s) && Agrees(core.table) && IsRecordOf(r, core, appVersion, tail)
    requires Shows(r, s.clusterId, attempts)
    requires Connect(s, attempts).step >= 3
    ensures var t := Connect(s, attempts);
            && (t.agent.core == core <==> core.leadershipTermId != NULL_VALUE || core.table == NO_SESSIONS)
            && (t.loader.Some? <==> core.leadershipTermId != NULL_VALUE)
            && (t.loader.Some? ==> t.loader.value.image[t.loader.value.cursor..] == tail)
  {
    hide Connect, Shows, LoadAll, AddAll, SnapshotOf;
    ConnectOnRecord(s, attempts, r);
    ConnectKeeps(s, attempts);
    var t := Connect(s, attempts);
    LoadedIsRecovered(t);
    if t.loader.Some? {
      SnapshotRoundTrip(core.table, core.logPosition, core.leadershipTermId, appVersion, tail);
      LoadedOnce(t.loader.value);
    }
  }

  lemma LoadedOnce(l: Loading)
    requires l.isDone
    ensures LoadAll(l) == l
  {
  }

  /** Apply a prefix of a log, snapshot, recover a new agent from the snapshot and the recovery
      counter, and apply the rest: for every rest of the log that comes to the state, the callbacks
      and the success or failure of applying the whole log, if and only if the prefix left a
      leadership term, or no sessions open. */
  lemma SnapshotPlusSuffix(s: Connecting, attempts: seq<Attempt>, r: RecoveryRecord, core: Core, prefix: seq<Entry>,
                           appVersion: int, tail: seq<SnapshotMessage>)
    requires IsNew(s) && Agrees(core.table) && Replay(core, prefix).failure.None?
    requires IsRecordOf(r, Replay(core, prefix).core, appVersion, tail)
    requires Shows(r, s.clusterId, attempts)
    requires Connect(s, attempts).step >= 3
    ensures var taken := Replay(core, prefix);
            (forall suffix: seq<Entry> :: ReplaysWhole(core, prefix, suffix, Connect(s, attempts).agent.core)) <==>
            taken.core.leadershipTermId != NULL_VALUE || taken.core.table == NO_SESSIONS
  {
    hide Connect, Shows, Agrees;
    var taken := Replay(core, prefix);
    ReplayMeansTheLog(core, prefix);
    RecoversIffTermOrEmpty(s, attempts, r, taken.core, appVersion, tail);
    var recovered := Connect(s, attempts).agent.core;
    if recovered == taken.core {
      forall suffix: seq<Entry> ensures ReplaysWhole(core, prefix, suffix, recovered) {
        ReplayAppends(core, prefix, suffix);
      }
    } else {
      assert prefix + [] == prefix;
      assert !ReplaysWhole(core, prefix, [], recovered);
    }
  }

  /** The suffix applied to the recovered core, behind what the prefix called, is the whole log applied. */
  ghost predicate ReplaysWhole(core: Core, prefix: seq<Entry>, suffix: seq<Entry>, recovered: Core)
  {
    var rest := Replay(recovered, suffix);
    Replay(core, prefix + suffix) == Outcome(rest.core, Replay(core, prefix).callbacks + rest.callbacks, rest.failure)
  }

  // ---- From a recovered agent on ----

  lemma {:induction false} StartNotesCallNothing(journal: seq<Note>)
    requires forall k | 0 <= k < |journal| :: IsStartNote(journal[k])
    ensures LogCallbacks(journal) == []
  {
    if journal != [] {
      StartNotesCallNothing(journal[..|journal| - 1]);
    }
  }

  /** The agent has what the whole log, replayed from its start to message `n`, would have brought it,
      and its callbacks continue those of the prefix. */
  ghost predicate HasWhole(u: AgentState, core: Core, log: Log, before: seq<Callback>, n: nat)
    requires Valid(log) && n <= |log.messages|
  {
    var whole := Replay(core, Entries(log, 0, n));
    && whole.failure.None?
    && u.core.table == whole.core.table && u.core.clusterTime == whole.core.clusterTime
    && u.core.leadershipTermId == whole.core.leadershipTermId
    && before + LogCallbacks(u.journal) == whole.callbacks
  }

  /** Through exactly the messages whose last frame it has read, and the whole log once every frame has been. */
  ghost predicate WholeAsRead(u: AgentState, core: Core, log: Log, before: seq<Callback>)
    requires Valid(log)
  {
    u.image.Some? ==>
      && (exists n :: && 0 <= n <= |log.messages| && WhollyRead(log, u.image.value, n)
                      && HasWhole(u, core, log, before, n))
      && (u.image.value.consumed == |u.image.value.frames| ==> HasWhole(u, core, log, before, |log.messages|))
  }

  /** Through exactly the messages that end at or below its log position. */
  ghost predicate WholeToPosition(u: AgentState, core: Core, log: Log, before: seq<Callback>)
    requires Valid(log)
  {
    exists n :: 0 <= n <= |log.messages| && EndsBelow(log, n, u.core.logPosition) && HasWhole(u, core, log, before, n)
  }

  /** The origin is where replaying the log from its very start has led. */
  ghost predicate Continues(core: Core, x: Origin)
    requires OriginValid(x)
  {
    var prefix := Replay(core, Entries(x.log, 0, x.from));
    prefix.failure.None? && x.core == prefix.core && x.callbacks == []
  }

  ghost function CallbacksBefore(core: Core, x: Origin): seq<Callback>
    requires OriginValid(x)
  {
    Replay(core, Entries(x.log, 0, x.from)).callbacks
  }

  lemma AppliedIsWhole(u: AgentState, core: Core, x: Origin, n: nat)
    requires OriginValid(x) && Continues(core, x) && x.from <= n <= |x.log.messages| && HasApplied(u, x, n)
    ensures HasWhole(u, core, x.log, CallbacksBefore(core, x), n)
  {
    hide Valid, BoundOnFrames, Boundary;
    EntriesSplit(x.log, 0, x.from, n);
    ReplayAppends(core, Entries(x.log, 0, x.from), Entries(x.log, x.from, n));
    assert [] + Applied(x, n).callbacks == Applied(x, n).callbacks;
  }

  lemma ReadIsWhole(u: AgentState, core: Core, x: Origin)
    requires OriginValid(x) && Continues(core, x) && AppliedAsRead(u, x)
    ensures WholeAsRead(u, core, x.log, CallbacksBefore(core, x))
  {
    hide Valid, HasApplied, HasWhole, WhollyRead, Continues, BoundOnFrames, Boundary;
    if u.image.Some? {
      var n :| x.from <= n <= |x.log.messages| && WhollyRead(x.log, u.image.value, n) && HasApplied(u, x, n);
      AppliedIsWhole(u, core, x, n);
      if u.image.value.consumed == |u.image.value.frames| {
        AppliedIsWhole(u, core, x, |x.log.messages|);
      }
    }
  }

  lemma PositionIsWhole(u: AgentState, core: Core, x: Origin)
    requires OriginValid(x) && Continues(core, x) && exists n :: AppliedToPosition(u, x, n)
    ensures WholeToPosition(u, core, x.log, CallbacksBefore(core, x))
  {
    hide Valid, HasApplied, HasWhole, EndsBelow, Continues, BoundOnFrames, Boundary;
    var n :| AppliedToPosition(u, x, n);
    AppliedIsWhole(u, core, x, n);
  }

  /** Replaying the whole log ends in the failure. */
  ghost predicate WholeLogFails(core: Core, log: Log, failure: Option<Failure>)
    requires Valid(log)
  {
    exists n :: 0 <= n <= |log.messages| && Replay(core, Entries(log, 0, n)).failure == failure
  }

  lemma FailsAsWhole(core: Core, x: Origin, failure: Option<Failure>)
    requires OriginValid(x) && FailsInLog(x, failure) && failure.Some? && Continues(core, x)
    ensures WholeLogFails(core, x.log, failure)
  {
    hide Valid, BoundOnFrames, Boundary;
    var n :| x.from < n <= |x.log.messages| && Applied(x, n).failure == failure;
    EntriesSplit(x.log, 0, x.from, n);
    ReplayAppends(core, Entries(x.log, 0, x.from), Entries(x.log, x.from, n));
    assert Replay(core, Entries(x.log, 0, n)).failure == failure;
  }

  lemma RecoveredStarts(s: Connecting, attempts: seq<Attempt>, core: Core, x: Origin)
    requires IsNew(s) && OriginValid(x) && Continues(core, x)
    requires Connect(s, attempts).agent.core == x.core && Connect(s, attempts).agent.failure.None?
    requires Connect(s, attempts).agent.config.decode == x.log.decode
    ensures Starts(Connect(s, attempts).agent, x)
  {
    hide Connect, Valid, BoundOnFrames, Boundary;
    NotesKept(s, attempts);
    StartNotesCallNothing(Connect(s, attempts).agent.journal);
  }

  lemma OriginAgrees(core: Core, x: Origin)
    requires Agrees(core.table) && OriginValid(x) && Continues(core, x)
    ensures Agrees(x.core.table)
  {
    hide Valid, Agrees, BoundOnFrames, Boundary;
    ReplayMeansTheLog(core, Entries(x.log, 0, x.from));
  }

  /** An agent recovered from a snapshot at message `from` of a log, and then driven however it may be
      with images of that log, has at every moment what an agent would that applied the log from its very
      start: through the messages whose last frame it has read, and over a log that tells through those that
      end at or below its position, message for message and callback for callback; and if a log event ends
      it, that event's failure ends the replay of the whole log. */
  lemma RecoveredRunContinuesLog(s: Connecting, attempts: seq<Attempt>, r: RecoveryRecord, core: Core, x: Origin,
                                 appVersion: int, tail: seq<SnapshotMessage>, inputs: seq<Input>)
    requires IsNew(s) && Agrees(core.table) && OriginValid(x) && Trusted(x) && Continues(core, x)
    requires x.core.leadershipTermId != NULL_VALUE || x.core.table == NO_SESSIONS
    requires IsRecordOf(r, x.core, appVersion, tail) && Shows(r, s.clusterId, attempts)
    requires Connect(s, attempts).step >= 3 && Connect(s, attempts).agent.failure.None?
    requires Connect(s, attempts).agent.config.decode == x.log.decode
    requires Fits(Connect(s, attempts).agent, inputs, x)
    ensures var u := Run(Connect(s, attempts).agent, inputs);
            && (u.failure.None? ==>
                  && WholeAsRead(u, core, x.log, CallbacksBefore(core, x))
                  && (Reliable(x) ==> WholeToPosition(u, core, x.log, CallbacksBefore(core, x))))
            && (IsSessionFailure(u.failure) ==> WholeLogFails(core, x.log, u.failure))
  {
    assert Valid(x.log);
    hide Valid, Connect, Shows, Agrees, Fits, Run, AppliedToPosition, AppliedAsRead, WholeAsRead, WholeToPosition,
         OriginValid, Trusted, Reliable, Continues, IsRecordOf, FailsInLog, WholeLogFails, Starts;
    OriginAgrees(core, x);
    RecoversIffTermOrEmpty(s, attempts, r, x.core, appVersion, tail);
    RecoveredStarts(s, attempts, core, x);
    var t := Connect(s, attempts).agent;
    ContiguousRun(t, x, inputs);
    RunFailsAsTheLog(t, x, inputs);
    var u := Run(t, inputs);
    if u.failure.None? {
      ReadIsWhole(u, core, x);
      if Reliable(x) {
        PositionIsWhole(u, core, x);
      }
    } else if IsSessionFailure(u.failure) {
      FailsAsWhole(core, x, u.failure);
    }
  }

  // ---- Acks of a recovered agent ----

  lemma {:induction false} AcksAt(journal: seq<Note>, position: int)
    requires forall i | 0 <= i < |Acks(journal)| ::
               Acks(journal)[i].ServiceAck? && Acks(journal)[i].logPosition == position
    ensures forall k | 0 <= k < |journal| :: IsAckAt(journal[k], position)
  {
    if journal != [] {
      var init, last := journal[..|journal| - 1], journal[|journal| - 1];
      assert journal == init + [last];
      Snoc(init, last);
      assert forall i | 0 <= i < |Acks(init)| :: Acks(journal)[i] == Acks(init)[i];
      assert last.Sent? && last.request.ServiceAck? ==> Acks(journal)[|Acks(init)|] == last.request;
      AcksAt(init, position);
    }
  }

  /** Whatever a startup did, every run that follows numbers its acks without a gap, the startup's
      included, and spaces its polls, even where the snapshot repeated an id. */
  lemma RecoveredRunNumbers(s: Connecting, attempts: seq<Attempt>, inputs: seq<Input>)
    requires IsNew(s)
    ensures var u := Run(Connect(s, attempts).agent, inputs); AcksCounted(u) && TicksApart(u)
  {
    hide Run, Connect, Acks, Ticks;
    StartupNumbers(s, attempts);
    RunNumbers(Connect(s, attempts).agent, inputs);
  }
}
