/** What every startup keeps: its steps, its loader, the start of the service and the acks. */
module StartupProofs {
  import opened Aeron
  import opened SessionTable
  import opened ReplicatedState
  import opened Publications
  import opened Snapshots
  import opened AgentSpec
  import opened Journals
  import opened AckNumbers
  import opened Invariants
  import opened Counters
  import opened Startup

  // ---- Steps ----

  lemma LoaderKeepsStep(s: Connecting, l: Loading, m: Meeting)
    ensures PollLoader(s, l, m).step == s.step
    ensures PollLoader(s, l, m).agent.core.leadershipTermId == s.agent.core.leadershipTermId
  {
  }

  lemma StepForward(s: Connecting, a: Attempt)
    ensures s.step <= ConnectStep(s, a).step
    ensures s.step <= 4 ==> ConnectStep(s, a).step <= 4
  {
    hide Search, RecoveredCore, RecordingFailure, PollLoader, SendAck, CloseClientSession;
    if a.Polled? && s.step == 2 {
      var found := Resolve(s, a.meeting).(replayFound := true);
      if found.loader.Some? || a.meeting.snapshotImage.Some? {
        LoaderKeepsStep(found, LoaderOf(found, a.meeting), a.meeting);
      }
    }
  }

  /** Over any startup the step never goes back. */
  lemma {:induction false} StepNeverGoesBack(s: Connecting, attempts: seq<Attempt>, n: nat)
    requires n <= |attempts|
    ensures Connect(s, attempts[..n]).step <= Connect(s, attempts).step
    decreases |attempts|
  {
    if n < |attempts| {
      var init := attempts[..|attempts| - 1];
      StepNeverGoesBack(s, init, n);
      assert init[..n] == attempts[..n];
      StepForward(Connect(s, init), attempts[|attempts| - 1]);
    } else {
      assert attempts[..n] == attempts;
    }
  }

  // ---- What every startup keeps ----

  /** The loader is some way through its image, and the agent's table is the loader's; from step 3 on
      the snapshot has been loaded, or there was none to load. */
  ghost predicate Loads(s: Connecting)
  {
    if s.loader.None? then
      s.agent.core.table == NO_SESSIONS && (s.step >= 3 ==> s.agent.core.leadershipTermId == NULL_VALUE)
    else
      var l := s.loader.value;
      && s.step >= 2 && s.agent.core.leadershipTermId != NULL_VALUE
      && s.agent.core.table == l.table
      && LoadAll(l) == LoadAll(StartLoading(NO_SESSIONS, l.image))
      && (s.agent.failure.None? ==> l.failure.None?)
      && (s.step >= 3 ==> l.isDone && l.failure.None?)
  }

  /** One ack for each poll that returned the agent, all of them for the client, at the recovered
      position and time, their ids counted from zero. */
  ghost predicate AcksAreReturns(s: Connecting)
  {
    && |Acks(s.agent.journal)| == s.agent.ackId == s.returned
    && (s.returned > 0 ==> s.step == 4)
    && forall i | 0 <= i < |Acks(s.agent.journal)| ::
         Acks(s.agent.journal)[i] ==
         ServiceAck(s.agent.core.logPosition, s.agent.core.clusterTime, i, s.clientId, s.agent.config.serviceId)
  }

  ghost predicate StartInv(s: Connecting) { s.step <= 4 && Loads(s) && AcksAreReturns(s) }

  lemma {:induction false} AcksOfRestored(journal: seq<Note>, sessions: seq<Session>)
    ensures Acks(journal + RestoredAll(sessions)) == Acks(journal)
    decreases |sessions|
  {
    if sessions == [] {
      assert journal + RestoredAll(sessions) == journal;
    } else {
      var init, last := sessions[..|sessions| - 1], sessions[|sessions| - 1];
      AcksOfRestored(journal, init);
      assert journal + RestoredAll(sessions) == (journal + RestoredAll(init)) + [Restored(last)];
      Snoc(journal + RestoredAll(init), Restored(last));
    }
  }

  /** The agent is the same but for its core and journal, and nothing was acknowledged. */
  ghost predicate NothingSent(s: Connecting, t: Connecting)
  {
    && Acks(t.agent.journal) == Acks(s.agent.journal) && t.agent.ackId == s.agent.ackId && t.returned == s.returned
    && (s.returned > 0 ==> t.step == s.step && t.agent.core == s.agent.core)
    && t.clientId == s.clientId && t.agent.config == s.agent.config
  }

  lemma NothingSentKeeps(s: Connecting, t: Connecting)
    requires AcksAreReturns(s) && NothingSent(s, t)
    ensures AcksAreReturns(t)
  {
  }

  lemma TakeKeeps(s: Connecting, m: Meeting)
    requires StartInv(s) && s.step == 1 && s.returned == 0
    ensures StartInv(TakeRecoveryState(s, m))
  {
    hide GetLogPosition, GetTimestamp, GetLeadershipTermId, RecordingFailure, LoadAll, Acks, AcksAreReturns,
         NothingSent;
    TakeSendsNothing(s, m);
    NothingSentKeeps(s, TakeRecoveryState(s, m));
  }

  lemma TakeSendsNothing(s: Connecting, m: Meeting)
    requires s.returned == 0
    ensures NothingSent(s, TakeRecoveryState(s, m))
  {
    hide RecoveredCore, RecordingFailure, Acks;
  }

  lemma PutInNotes(s: Connecting, read: Loading, sessions: seq<Session>, failure: Option<Failure>)
    ensures var loaded := PutIn(s, read, sessions);
            var t := loaded.(agent := loaded.agent.(failure := failure));
            && t.agent.journal == s.agent.journal + RestoredAll(sessions)
            && t.agent.ackId == s.agent.ackId && t.returned == s.returned && t.clientId == s.clientId
            && t.agent.config == s.agent.config
  {
    hide RestoredAll;
  }

  /** A poll of the loader puts in what was read, and may fail. */
  lemma LoaderPutsIn(s: Connecting, l: Loading, m: Meeting)
    ensures var read := LoadPoll(l, FRAGMENT_LIMIT, if m.imageClosed then 0 else m.available).0;
            var loaded := PutIn(s, read, SessionsIn(l.image[l.cursor..read.cursor]));
            PollLoader(s, l, m) == loaded.(agent := loaded.agent.(failure := PollLoader(s, l, m).agent.failure))
  {
    hide LoadPoll, SessionsIn, PutIn, LoaderFailure;
  }

  lemma LoaderSendsNothing(s: Connecting, l: Loading, m: Meeting)
    requires s.returned == 0
    ensures NothingSent(s, PollLoader(s, l, m))
  {
    LoaderPutsIn(s, l, m);
    hide LoadPoll, SessionsIn, RestoredAll, Acks, PollLoader, PutIn;
    var read := LoadPoll(l, FRAGMENT_LIMIT, if m.imageClosed then 0 else m.available).0;
    PutInNotes(s, read, SessionsIn(l.image[l.cursor..read.cursor]), PollLoader(s, l, m).agent.failure);
    AcksOfRestored(s.agent.journal, SessionsIn(l.image[l.cursor..read.cursor]));
  }

  lemma PutInLoads(s: Connecting, read: Loading, sessions: seq<Session>, failure: Failure)
    requires s.step == 2 && s.agent.core.leadershipTermId != NULL_VALUE
    requires LoadAll(read) == LoadAll(StartLoading(NO_SESSIONS, read.image))
    ensures read.failure.None? ==> Loads(PutIn(s, read, sessions))
    ensures Loads(Failed(PutIn(s, read, sessions), failure))
  {
    hide LoadAll, RestoredAll;
  }

  lemma LoaderKeepsLoads(s: Connecting, l: Loading, m: Meeting)
    requires s.step == 2 && !l.isDone && l.failure.None? && s.agent.core.leadershipTermId != NULL_VALUE
    requires LoadAll(l) == LoadAll(StartLoading(NO_SESSIONS, l.image))
    ensures Loads(PollLoader(s, l, m))
  {
    hide LoadAll, LoadPoll, SessionsIn, RestoredAll, Loads, StartLoading;
    var available := if m.imageClosed then 0 else m.available;
    var read := LoadPoll(l, FRAGMENT_LIMIT, available).0;
    PollIsPartOfLoad(l, FRAGMENT_LIMIT, available);
    var sessions := SessionsIn(l.image[l.cursor..read.cursor]);
    PutInLoads(s, read, sessions, if read.failure.Some? then read.failure.value else SnapshotEnded);
    PutInLoads(s, read, sessions, ArchiveRefused);
  }

  lemma LoaderKeeps(s: Connecting, l: Loading, m: Meeting)
    requires AcksAreReturns(s) && s.step == 2 && !l.isDone && l.failure.None?
             && s.agent.core.leadershipTermId != NULL_VALUE
    requires LoadAll(l) == LoadAll(StartLoading(NO_SESSIONS, l.image))
    ensures StartInv(PollLoader(s, l, m))
  {
    hide LoadAll, PollLoader, Acks, AcksAreReturns, NothingSent, Loads;
    LoaderKeepsLoads(s, l, m);
    LoaderKeepsStep(s, l, m);
    Unreturned(s);
    LoaderSendsNothing(s, l, m);
    NothingSentKeeps(s, PollLoader(s, l, m));
  }

  lemma ReplayKeeps(s: Connecting, m: Meeting)
    requires StartInv(s) && s.step == 2 && s.agent.failure.None? && s.agent.core.leadershipTermId != NULL_VALUE
    ensures StartInv(ReplaySnapshot(s, m))
  {
    hide LoadAll, PollLoader, Acks, AcksAreReturns;
    Unreturned(s);
    var found := s.(replayFound := true);
    NothingSentKeeps(s, found);
    if s.replayFound || m.replayFound {
      if found.loader.None? && m.snapshotImage.Some? {
        LoaderKeeps(found, StartLoading(NO_SESSIONS, m.snapshotImage.value), m);
      } else if found.loader.Some? {
        NothingSentKeeps(s, found.(step := 3));
        if !found.loader.value.isDone {
          LoaderKeeps(found, found.loader.value, m);
        }
      }
    }
  }

  lemma StartKeeps(s: Connecting, m: Meeting)
    requires StartInv(s) && s.step == 3
    ensures StartInv(StartService(s, m))
  {
    hide LoadAll;
    Snoc(s.agent.journal, Called(OnStart(s.loader.Some?)));
    NothingSentKeeps(s, StartService(s, m));
  }

  lemma AckKeepsLoads(s: Connecting, m: Meeting)
    requires Loads(s) && s.step == 4 && s.agent.failure.None?
    ensures Loads(AckStart(s, m))
  {
    hide LoadAll, TryClaim;
  }

  lemma AckKeeps(s: Connecting, m: Meeting)
    requires StartInv(s) && s.step == 4 && s.agent.failure.None?
    ensures StartInv(AckStart(s, m))
  {
    hide LoadAll, TryClaim, Loads, Acks;
    AckKeepsLoads(s, m);
    var ack := ServiceAck(s.agent.core.logPosition, s.agent.core.clusterTime, s.agent.ackId, s.clientId,
                          s.agent.config.serviceId);
    Snoc(s.agent.journal, Sent(ack));
  }

  /** Step 2 is entered with a term only. */
  ghost predicate HasTerm(s: Connecting)
  {
    s.step == 2 && s.agent.failure.None? ==> s.agent.core.leadershipTermId != NULL_VALUE
  }

  lemma PollKeepsInv(s: Connecting, m: Meeting)
    requires StartInv(s) && HasTerm(s)
    ensures StartInv(ConnectPoll(s, m))
  {
    hide Search, TakeRecoveryState, ReplaySnapshot, StartService, AckStart, LoadAll, AcksAreReturns;
    var r := Resolve(s, m);
    NothingSentKeeps(s, r);
    if s.agent.failure.None? {
      if r.step <= 1 {
        Unreturned(s);
        NothingSentKeeps(s, r.(step := 1));
        TakeKeeps(r.(step := 1), m);
      } else if r.step == 2 {
        ReplayKeeps(r, m);
      } else if r.step == 3 {
        StartKeeps(r, m);
      } else {
        AckKeeps(r, m);
      }
    }
  }

  lemma Unreturned(s: Connecting)
    requires AcksAreReturns(s) && s.step < 4
    ensures s.returned == 0
  {
  }

  lemma PollKeepsTerm(s: Connecting, m: Meeting)
    requires HasTerm(s)
    ensures HasTerm(ConnectPoll(s, m))
  {
    hide Search, RecoveredCore, RecordingFailure, SendAck, PollLoader, CloseClientSession;
    if s.step == 2 {
      var found := Resolve(s, m).(replayFound := true);
      if found.loader.Some? || m.snapshotImage.Some? {
        LoaderKeepsStep(found, LoaderOf(found, m), m);
      }
    } else if s.step == 4 {
      StepForward(s, Polled(m));
    }
  }

  lemma CloseAskedKeeps(s: Connecting, a: Attempt)
    requires StartInv(s) && a.CloseAsked?
    ensures StartInv(ConnectStep(s, a))
  {
    hide LoadAll;
    Snoc(s.agent.journal, Sent(CloseSession(a.clusterSessionId)));
    NothingSentKeeps(s, ConnectStep(s, a));
  }

  /** Every startup keeps: the agent's table is what the loader has made of the snapshot so far, or
      empty; step 3 is reached only behind the snapshot's END or without a snapshot; and acks are sent
      only where the agent is returned. */
  lemma {:induction false} ConnectKeeps(s: Connecting, attempts: seq<Attempt>)
    requires IsNew(s)
    ensures StartInv(Connect(s, attempts)) && HasTerm(Connect(s, attempts))
    decreases |attempts|
  {
    if |attempts| > 0 {
      var init, last := Connect(s, attempts[..|attempts| - 1]), attempts[|attempts| - 1];
      ConnectKeeps(s, attempts[..|attempts| - 1]);
      hide StartInv, HasTerm, ConnectPoll;
      if last.Polled? {
        PollKeepsInv(init, last.meeting);
        PollKeepsTerm(init, last.meeting);
      } else {
        CloseAskedKeeps(init, last);
        CloseAskedKeepsTerm(init, last);
      }
    }
  }

  lemma CloseAskedKeepsTerm(s: Connecting, a: Attempt)
    requires HasTerm(s) && a.CloseAsked?
    ensures HasTerm(ConnectStep(s, a))
  {
  }

  // ---- Recovered before started ----

  /** Without a term nothing is loaded; with one, the snapshot was readable up to its END with exactly
      one BEGIN before it, its sessions and no others are in the table, and the image stands right
      behind END. */
  ghost predicate Recovered(s: Connecting)
  {
    if s.loader.None? then s.agent.core.leadershipTermId == NULL_VALUE && s.agent.core.table == NO_SESSIONS
    else
      var l := s.loader.value;
      && s.agent.core.leadershipTermId != NULL_VALUE && l.cursor > 0
      && EndsAt(l.image, false, 0, l.cursor - 1)
      && s.agent.core.table == AddAll(NO_SESSIONS, SessionsIn(l.image[0..l.cursor - 1]))
  }

  lemma DoneIsBehindSomething(l: Loading)
    requires !l.isDone && LoadAll(l).isDone
    ensures LoadAll(l).cursor > l.cursor
  {
  }

  lemma LoadedIsRecovered(s: Connecting)
    requires Loads(s) && s.step >= 3
    ensures Recovered(s)
  {
    if s.loader.Some? {
      var l := s.loader.value;
      var start := StartLoading(NO_SESSIONS, l.image);
      assert LoadAll(l) == l;
      DoneIsBehindSomething(start);
      LoaderAccepts(start, l.cursor - 1);
    }
  }

  ghost predicate StartNotes(s: Connecting)
  {
    && (forall k | 0 <= k < |s.agent.journal| && IsOnStart(s.agent.journal[k]) ::
          s.step >= 3 && s.agent.journal[k].callback.fromSnapshot == s.loader.Some?)
    && (s.step >= 4 ==> exists k :: 0 <= k < |s.agent.journal| && IsOnStart(s.agent.journal[k]))
    && (forall k | 0 <= k < |s.agent.journal| :: IsStartNote(s.agent.journal[k]))
    && s.agent.image.None? && s.agent.activeLog.None?
  }

  predicate IsOnStart(n: Note) { n.Called? && n.callback.OnStart? }

  predicate IsStartNote(n: Note) { n.Restored? || IsOnStart(n) || n.Sent? }

  /** The journal grows by notes of which at most one, made in step 3, is the start of the service. */
  ghost predicate Grows(s: Connecting, t: Connecting)
  {
    && s.agent.journal <= t.agent.journal && s.step <= t.step
    && (forall k | |s.agent.journal| <= k < |t.agent.journal| ::
          IsStartNote(t.agent.journal[k]) &&
          (IsOnStart(t.agent.journal[k]) ==> s.step == 3 && t.agent.journal[k].callback.fromSnapshot == s.loader.Some?))
    && (s.step < 4 <= t.step ==> |s.agent.journal| < |t.agent.journal| && IsOnStart(t.agent.journal[|s.agent.journal|]))
    && (s.step >= 3 ==> t.loader == s.loader)
    && t.agent.image == s.agent.image && t.agent.activeLog == s.agent.activeLog
  }

  lemma GrowsKeepsNotes(s: Connecting, t: Connecting)
    requires StartNotes(s) && Grows(s, t)
    ensures StartNotes(t)
  {
    forall k | 0 <= k < |s.agent.journal| ensures t.agent.journal[k] == s.agent.journal[k] {}
    if s.step >= 4 {
      var k :| 0 <= k < |s.agent.journal| && IsOnStart(s.agent.journal[k]);
      assert IsOnStart(t.agent.journal[k]);
    }
  }

  lemma TakeGrows(s: Connecting, m: Meeting)
    requires s.step <= 1
    ensures Grows(s, TakeRecoveryState(s.(step := 1), m))
  {
    hide RecoveredCore, RecordingFailure;
  }

  lemma LoaderGrows(s: Connecting, l: Loading, m: Meeting)
    requires s.step == 2
    ensures Grows(s, PollLoader(s, l, m))
  {
    hide LoadPoll, SessionsIn;
  }

  lemma ReplayGrows(s: Connecting, m: Meeting)
    requires s.step == 2
    ensures Grows(s, ReplaySnapshot(s, m))
  {
    hide PollLoader;
    var found := s.(replayFound := true);
    if (s.replayFound || m.replayFound) && (found.loader.Some? || m.snapshotImage.Some?) {
      LoaderGrows(found, LoaderOf(found, m), m);
    }
  }

  lemma StartGrows(s: Connecting, m: Meeting)
    requires s.step == 3
    ensures Grows(s, StartService(s, m))
  {
  }

  lemma AckGrows(s: Connecting, m: Meeting)
    requires s.step == 4
    ensures Grows(s, AckStart(s, m))
  {
    hide TryClaim;
  }

  lemma CloseAskedGrows(s: Connecting, a: Attempt)
    requires a.CloseAsked?
    ensures Grows(s, ConnectStep(s, a))
  {
    hide TryClaim;
  }

  lemma ResolvedGrows(s: Connecting, m: Meeting, t: Connecting)
    requires Grows(Resolve(s, m), t)
    ensures Grows(s, t)
  {
    hide Search;
  }

  lemma StepGrows(s: Connecting, a: Attempt)
    requires s.step <= 4
    ensures Grows(s, ConnectStep(s, a))
  {
    if a.Polled? {
      hide Search, TakeRecoveryState, ReplaySnapshot, StartService, AckStart, Grows;
      var r := Resolve(s, a.meeting);
      UnchangedGrows(s);
      if s.agent.failure.None? {
        if r.step == 0 && !(AllResolved(r) && a.meeting.isConnected) {
          UnchangedGrows(r);
        } else if s.step <= 1 {
          TakeGrows(r, a.meeting);
        } else if s.step == 2 {
          ReplayGrows(r, a.meeting);
        } else if s.step == 3 {
          StartGrows(r, a.meeting);
        } else {
          AckGrows(r, a.meeting);
        }
        ResolvedGrows(s, a.meeting, ConnectPoll(s, a.meeting));
      }
    } else {
      CloseAskedGrows(s, a);
    }
  }

  lemma UnchangedGrows(s: Connecting)
    ensures Grows(s, s)
  {
  }

  lemma {:induction false} NotesKept(s: Connecting, attempts: seq<Attempt>)
    requires IsNew(s)
    ensures StartNotes(Connect(s, attempts))
    decreases |attempts|
  {
    if |attempts| > 0 {
      var init, last := Connect(s, attempts[..|attempts| - 1]), attempts[|attempts| - 1];
      NotesKept(s, attempts[..|attempts| - 1]);
      ConnectKeeps(s, attempts[..|attempts| - 1]);
      hide StartNotes, Grows, ConnectStep;
      StepGrows(init, last);
      GrowsKeepsNotes(init, ConnectStep(init, last));
    }
  }

  /** Whenever the service has been started, the agent was recovered before: from a whole snapshot,
      which the service is then given right behind its END, or from none. */
  lemma StartedOnlyRecovered(s: Connecting, attempts: seq<Attempt>, k: nat)
    requires IsNew(s) && k < |Connect(s, attempts).agent.journal| && IsOnStart(Connect(s, attempts).agent.journal[k])
    ensures var t := Connect(s, attempts);
            Recovered(t) && t.agent.journal[k].callback.fromSnapshot == t.loader.Some?
  {
    ConnectKeeps(s, attempts);
    NotesKept(s, attempts);
    LoadedIsRecovered(Connect(s, attempts));
  }
}
