/** How a startup gets on, read off what its polls meet: when it leaves each step, how often the service is called,
    when the agent is returned, and what it fails of. */
module StartupProgress {
  import opened Aeron
  import opened SessionTable
  import opened ReplicatedState
  import opened Publications
  import opened Snapshots
  import opened AgentSpec
  import opened DutyCycles
  import opened Journals
  import opened AckNumbers
  import opened Counters
  import opened Startup
  import opened StartupProofs

  // ---- Called until started, and acknowledged after ----

  /** Attempt `n` is a poll that comes upon the step, with no exception before. */
  predicate Meets(s: Connecting, attempts: seq<Attempt>, n: nat, step: nat)
  {
    n < |attempts| && attempts[n].Polled? &&
    Connect(s, attempts[..n]).step == step && Connect(s, attempts[..n]).agent.failure.None?
  }

  /** How many polls come upon step 3. */
  function StartPolls(s: Connecting, attempts: seq<Attempt>): nat
  {
    if |attempts| == 0 then 0
    else
      StartPolls(s, attempts[..|attempts| - 1]) + (if Meets(s, attempts, |attempts| - 1, 3) then 1 else 0)
  }

  /** In some poll that comes upon step 3 the service says it has started. */
  ghost predicate HasStarted(s: Connecting, attempts: seq<Attempt>)
  {
    exists n: nat :: Meets(s, attempts, n, 3) && attempts[n].meeting.started
  }

  /** How many polls come upon step 4 and have their claim granted. */
  function AckPolls(s: Connecting, attempts: seq<Attempt>): nat
  {
    if |attempts| == 0 then 0
    else
      AckPolls(s, attempts[..|attempts| - 1]) +
      if Meets(s, attempts, |attempts| - 1, 4) && TryClaim(attempts[|attempts| - 1].meeting.ackClaims) == CLAIMED
      then 1 else 0
  }

  lemma MeetsSnoc(s: Connecting, attempts: seq<Attempt>, n: nat, step: nat)
    requires |attempts| > 0
    ensures Meets(s, attempts, n, step) <==>
            if n == |attempts| - 1 then Meets(s, attempts, n, step) else Meets(s, attempts[..|attempts| - 1], n, step)
  {
    hide Connect;
    if n < |attempts| - 1 {
      assert attempts[..|attempts| - 1][..n] == attempts[..n];
    }
  }

  lemma StartedSnoc(s: Connecting, attempts: seq<Attempt>)
    requires |attempts| > 0
    ensures var init, last := attempts[..|attempts| - 1], |attempts| - 1;
            HasStarted(s, attempts) <==>
            HasStarted(s, init) || (Meets(s, attempts, last, 3) && attempts[last].meeting.started)
  {
    var init, last := attempts[..|attempts| - 1], |attempts| - 1;
    forall n: nat ensures Meets(s, attempts, n, 3) <==>
                          if n == last then Meets(s, attempts, n, 3) else Meets(s, init, n, 3)
    {
      MeetsSnoc(s, attempts, n, 3);
    }
    if n: nat :| Meets(s, init, n, 3) && init[n].meeting.started {
      assert n != last;
      assert Meets(s, attempts, n, 3) && attempts[n].meeting.started;
    }
  }

  predicate AtStep(s: Connecting, a: Attempt, step: nat)
  {
    a.Polled? && s.step == step && s.agent.failure.None?
  }

  /** What one attempt adds. */
  ghost predicate GoesOn(s: Connecting, a: Attempt, t: Connecting)
  {
    && Count(IsOnStart, t.agent.journal) ==
       Count(IsOnStart, s.agent.journal) + (if AtStep(s, a, 3) then 1 else 0)
    && (t.step >= 4 <==> s.step >= 4 || (AtStep(s, a, 3) && a.meeting.started))
    && t.returned == s.returned + if AtStep(s, a, 4) && TryClaim(a.meeting.ackClaims) == CLAIMED then 1 else 0
  }

  lemma SameGoesOn(s: Connecting, a: Attempt, t: Connecting, more: seq<Note>)
    requires t.agent.journal == s.agent.journal + more && forall k | 0 <= k < |more| :: !IsOnStart(more[k])
    requires !AtStep(s, a, 3) && (t.step >= 4 <==> s.step >= 4)
    requires t.returned == s.returned + if AtStep(s, a, 4) && TryClaim(a.meeting.ackClaims) == CLAIMED then 1 else 0
    ensures GoesOn(s, a, t)
  {
    CountAdds(IsOnStart, s.agent.journal, more);
    CountIsZero(IsOnStart, more);
  }

  lemma StartGoesOn(s: Connecting, m: Meeting)
    requires AtStep(s, Polled(m), 3)
    ensures GoesOn(s, Polled(m), ConnectPoll(s, m))
  {
    var note := Called(OnStart(s.loader.Some?));
    CountAdds(IsOnStart, s.agent.journal, [note]);
    CountOne(IsOnStart, note);
    hide Count, Search, TryClaim;
  }

  lemma AckGoesOn(s: Connecting, m: Meeting)
    requires AtStep(s, Polled(m), 4)
    ensures GoesOn(s, Polled(m), ConnectPoll(s, m))
  {
    hide Search, TryClaim, GoesOn;
    var more := ConnectPoll(s, m).agent.journal[|s.agent.journal|..];
    SameGoesOn(s, Polled(m), ConnectPoll(s, m), more);
  }

  lemma TakeAddsNone(s: Connecting, m: Meeting)
    requires s.step <= 1
    ensures var t := TakeRecoveryState(s.(step := 1), m);
            t.agent.journal == s.agent.journal && t.step < 4 && t.returned == s.returned
  {
    hide RecoveredCore, RecordingFailure;
  }

  lemma ReplayAddsRestored(s: Connecting, m: Meeting) returns (more: seq<Note>)
    requires s.step == 2 && s.agent.failure.None?
    ensures var t := ReplaySnapshot(s, m);
            && t.agent.journal == s.agent.journal + more && (forall k | 0 <= k < |more| :: more[k].Restored?)
            && t.step < 4 && t.returned == s.returned
  {
    ReplaysExactly(s, m);
    KeepsReturned(s, m);
    hide ReplaySnapshot, LoadPoll, SessionsIn, StartLoading;
    more := ReplaySnapshot(s, m).agent.journal[|s.agent.journal|..];
  }

  lemma EarlyGoesOn(s: Connecting, m: Meeting)
    requires s.step < 3 && s.agent.failure.None?
    ensures GoesOn(s, Polled(m), ConnectPoll(s, m))
  {
    hide Search, TakeRecoveryState, ReplaySnapshot, GoesOn, TryClaim;
    var r := Resolve(s, m);
    var more := [];
    assert s.agent.journal + [] == s.agent.journal;
    if r.step == 0 && !(AllResolved(r) && m.isConnected) {
    } else if r.step <= 1 {
      TakeAddsNone(r, m);
    } else {
      more := ReplayAddsRestored(r, m);
    }
    SameGoesOn(s, Polled(m), ConnectPoll(s, m), more);
  }

  lemma StepGoesOn(s: Connecting, a: Attempt)
    requires s.step <= 4
    ensures GoesOn(s, a, ConnectStep(s, a))
  {
    hide GoesOn, ConnectPoll, TryClaim;
    if a.CloseAsked? {
      var more := ConnectStep(s, a).agent.journal[|s.agent.journal|..];
      SameGoesOn(s, a, ConnectStep(s, a), more);
    } else if s.agent.failure.Some? {
      FailedStays(s, a.meeting);
      assert s.agent.journal + [] == s.agent.journal;
      SameGoesOn(s, a, ConnectStep(s, a), []);
    } else if s.step < 3 {
      EarlyGoesOn(s, a.meeting);
    } else if s.step == 3 {
      StartGoesOn(s, a.meeting);
    } else {
      AckGoesOn(s, a.meeting);
    }
  }

  lemma FailedStays(s: Connecting, m: Meeting)
    requires s.agent.failure.Some?
    ensures ConnectPoll(s, m) == s
  {
  }

  /** The service is called once in every poll that comes upon step 3, until it says it has started; then, and
      only then, is step 4 reached; and the agent is returned, with one ack, once in every poll that comes upon
      step 4 and has its claim granted. */
  lemma {:induction false} CalledUntilStarted(s: Connecting, attempts: seq<Attempt>)
    requires IsNew(s)
    ensures var t := Connect(s, attempts);
            && Count(IsOnStart, t.agent.journal) == StartPolls(s, attempts)
            && (t.step >= 4 <==> HasStarted(s, attempts))
            && t.returned == |Acks(t.agent.journal)| == AckPolls(s, attempts)
    decreases |attempts|
  {
    ConnectKeeps(s, attempts);
    if |attempts| > 0 {
      var init, last := attempts[..|attempts| - 1], attempts[|attempts| - 1];
      CalledUntilStarted(s, init);
      ConnectKeeps(s, init);
      StartedSnoc(s, attempts);
      hide HasStarted, ConnectStep, Count, TryClaim, Acks, Loads;
      StepGoesOn(Connect(s, init), last);
      MeetsLast(s, attempts, 3);
      MeetsLast(s, attempts, 4);
    }
  }

  lemma MeetsLast(s: Connecting, attempts: seq<Attempt>, step: nat)
    requires |attempts| > 0
    ensures Meets(s, attempts, |attempts| - 1, step) <==>
            AtStep(Connect(s, attempts[..|attempts| - 1]), attempts[|attempts| - 1], step)
  {
  }

  /** When the agent is first returned, it is recovered, its service has said that it has started, and exactly
      one ack was published: number 0, for the client, at the recovered position and time. */
  lemma ReturnedOnFirstAck(s: Connecting, attempts: seq<Attempt>)
    requires IsNew(s) && Connect(s, attempts).returned == 1
    ensures var t := Connect(s, attempts);
            && Recovered(t) && HasStarted(s, attempts)
            && Count(IsOnStart, t.agent.journal) == StartPolls(s, attempts) > 0
            && t.agent.ackId == 1
            && Acks(t.agent.journal) ==
               [ServiceAck(t.agent.core.logPosition, t.agent.core.clusterTime, 0, t.clientId, t.agent.config.serviceId)]
  {
    ConnectKeeps(s, attempts);
    NotesKept(s, attempts);
    LoadedIsRecovered(Connect(s, attempts));
    CalledUntilStarted(s, attempts);
    CountIsZero(IsOnStart, Connect(s, attempts).agent.journal);
    hide HasStarted, StartPolls, Count;
  }

  /** What the service asks of the agent while it is being started is done at once, and makes no other
      difference; at any other time there is no one to ask. */
  lemma CloseAskedExactly(s: Connecting, a: Attempt)
    requires a.CloseAsked?
    ensures ConnectStep(s, a) ==
            s.(agent := if s.step == 3 && s.agent.failure.None?
                        then CloseClientSession(s.agent, a.clusterSessionId, a.inLifecycleCallback, a.results).0
                        else s.agent)
  {
    hide CloseClientSession;
  }

  // ---- Out of step 0 ----

  /** What of the parts a poll finds. */
  ghost predicate Finds(clusterId: int, a: Attempt, part: Part)
  {
    a.Polled? &&
    match part
    case PUBLICATION => a.meeting.publicationFound
    case SUBSCRIPTION => a.meeting.subscriptionFound
    case ARCHIVE => a.meeting.archiveFound
    case COMMIT_POSITION =>
      Search(a.meeting.counters, Wanted(COMMIT_POSITION_TYPE_ID, CLUSTER_KEY_OFFSET, clusterId), 0) != NULL_COUNTER_ID
    case RECOVERY_COUNTER => Search(a.meeting.counters, WantedRecovery(clusterId), 0) != NULL_COUNTER_ID
  }

  datatype Part = PUBLICATION | SUBSCRIPTION | ARCHIVE | COMMIT_POSITION | RECOVERY_COUNTER

  predicate Has(s: Connecting, part: Part)
  {
    match part
    case PUBLICATION => s.publicationFound
    case SUBSCRIPTION => s.subscriptionFound
    case ARCHIVE => s.archiveFound
    case COMMIT_POSITION => s.commitPositionFound
    case RECOVERY_COUNTER => s.recoveryCounterId != NULL_COUNTER_ID
  }

  /** The part was there at the start, or some poll has found it. */
  ghost predicate FoundBy(s: Connecting, attempts: seq<Attempt>, part: Part)
  {
    Has(s, part) || exists n :: 0 <= n < |attempts| && Finds(s.clusterId, attempts[n], part)
  }

  /** A poll that is connected when every part has been found, in it or before. */
  ghost predicate GetsConnected(s: Connecting, attempts: seq<Attempt>, n: nat)
  {
    n < |attempts| && attempts[n].Polled? && attempts[n].meeting.isConnected && AllFoundBy(s, attempts[..n + 1])
  }

  ghost predicate AllFoundBy(s: Connecting, attempts: seq<Attempt>)
  {
    forall part :: FoundBy(s, attempts, part)
  }

  lemma FoundSnoc(s: Connecting, attempts: seq<Attempt>, part: Part)
    requires |attempts| > 0
    ensures FoundBy(s, attempts, part) <==>
            FoundBy(s, attempts[..|attempts| - 1], part) || Finds(s.clusterId, attempts[|attempts| - 1], part)
  {
    hide Finds;
    var init := attempts[..|attempts| - 1];
    if n :| 0 <= n < |init| && Finds(s.clusterId, init[n], part) {
      assert Finds(s.clusterId, attempts[n], part);
    }
  }

  lemma StepFinds(s: Connecting, a: Attempt, part: Part)
    requires s.agent.failure.None?
    ensures Has(ConnectStep(s, a), part) <==> Has(s, part) || Finds(s.clusterId, a, part)
    ensures ConnectStep(s, a).clusterId == s.clusterId
  {
    hide Search, TakeRecoveryState, ReplaySnapshot, StartService, AckStart, TryClaim;
    if a.Polled? {
      KeepsParts(Resolve(s, a.meeting), a.meeting);
      KeepsParts(Resolve(s, a.meeting).(step := 1), a.meeting);
    }
  }

  /** The parts that have been found are the same. */
  predicate SameParts(s: Connecting, t: Connecting)
  {
    && t.publicationFound == s.publicationFound && t.subscriptionFound == s.subscriptionFound
    && t.archiveFound == s.archiveFound && t.commitPositionFound == s.commitPositionFound
    && t.recoveryCounterId == s.recoveryCounterId && t.clusterId == s.clusterId
  }

  lemma KeepsParts(s: Connecting, m: Meeting)
    ensures SameParts(s, TakeRecoveryState(s, m)) && SameParts(s, ReplaySnapshot(s, m))
    ensures SameParts(s, StartService(s, m)) && SameParts(s, AckStart(s, m))
  {
    TakeKeepsParts(s, m);
    hide TakeRecoveryState, SendAck, PollLoader;
    if s.replayFound || m.replayFound {
      var found := s.(replayFound := true);
      if found.loader.Some? || m.snapshotImage.Some? {
        LoaderKeepsParts(found, LoaderOf(found, m), m);
      }
    }
  }

  lemma TakeKeepsParts(s: Connecting, m: Meeting)
    ensures SameParts(s, TakeRecoveryState(s, m))
  {
    hide RecoveredCore, RecordingFailure;
  }

  lemma LoaderKeepsParts(s: Connecting, l: Loading, m: Meeting)
    ensures SameParts(s, PollLoader(s, l, m))
  {
    LoaderPutsIn(s, l, m);
    hide LoadPoll, SessionsIn, RestoredAll, PollLoader;
  }

  lemma StepLeaves(s: Connecting, a: Attempt)
    requires s.agent.failure.None?
    ensures ConnectStep(s, a).step > 0 <==>
            s.step > 0 || (a.Polled? && a.meeting.isConnected && forall part :: Has(Resolve(s, a.meeting), part))
    ensures s.step == 0 && ConnectStep(s, a).step == 0 ==> ConnectStep(s, a).agent.failure.None?
    ensures a.Polled? ==>
              forall part :: Has(Resolve(s, a.meeting), part) <==> Has(s, part) || Finds(s.clusterId, a, part)
  {
    StepForward(s, a);
    if a.Polled? {
      var r := Resolve(s, a.meeting);
      hide Search, TakeRecoveryState, ReplaySnapshot, StartService, AckStart;
      AllOrNot(r);
      if s.step == 0 && AllResolved(r) && a.meeting.isConnected {
        StepForwardFrom1(r, a.meeting);
      }
    } else {
      hide TryClaim;
    }
  }

  lemma AllOrNot(s: Connecting)
    ensures AllResolved(s) <==> forall part :: Has(s, part)
  {
    var four := Has(s, PUBLICATION) && Has(s, SUBSCRIPTION) && Has(s, ARCHIVE) && Has(s, COMMIT_POSITION);
    assert AllResolved(s) <==> four && Has(s, RECOVERY_COUNTER);
    forall part | AllResolved(s) ensures Has(s, part) {}
  }

  lemma StepForwardFrom1(s: Connecting, m: Meeting)
    ensures TakeRecoveryState(s.(step := 1), m).step > 0
  {
    hide RecoveredCore, RecordingFailure;
  }

  lemma ConnectedSnoc(s: Connecting, attempts: seq<Attempt>)
    requires |attempts| > 0
    ensures var init, last := attempts[..|attempts| - 1], |attempts| - 1;
            (exists n: nat :: GetsConnected(s, attempts, n)) <==>
            (exists n: nat :: GetsConnected(s, init, n))
            || (attempts[last].Polled? && attempts[last].meeting.isConnected && AllFoundBy(s, attempts))
  {
    hide AllFoundBy;
    var init, last := attempts[..|attempts| - 1], |attempts| - 1;
    assert attempts[..last + 1] == attempts;
    forall n: nat | n < last ensures GetsConnected(s, attempts, n) <==> GetsConnected(s, init, n) {
      assert init[..n + 1] == attempts[..n + 1] && init[n] == attempts[n];
    }
    if attempts[last].Polled? && attempts[last].meeting.isConnected && AllFoundBy(s, attempts) {
      assert GetsConnected(s, attempts, last);
    }
    if n: nat :| GetsConnected(s, init, n) {
      assert GetsConnected(s, attempts, n);
    }
    if n: nat :| GetsConnected(s, attempts, n) {
      assert n < last ==> GetsConnected(s, init, n);
    }
  }

  /** Where a startup stands while it is at step 0. */
  ghost predicate StillFinding(s: Connecting, attempts: seq<Attempt>, t: Connecting)
  {
    t.agent.failure.None? && t.clusterId == s.clusterId && forall part :: Has(t, part) <==> FoundBy(s, attempts, part)
  }

  lemma FindsOn(s: Connecting, attempts: seq<Attempt>)
    requires |attempts| > 0
    requires var before := Connect(s, attempts[..|attempts| - 1]);
             before.step == 0 && StillFinding(s, attempts[..|attempts| - 1], before)
    ensures Connect(s, attempts).step > 0 <==>
            var last := attempts[|attempts| - 1];
            last.Polled? && last.meeting.isConnected && AllFoundBy(s, attempts)
    ensures Connect(s, attempts).step == 0 ==> StillFinding(s, attempts, Connect(s, attempts))
  {
    var init, last := attempts[..|attempts| - 1], attempts[|attempts| - 1];
    var before := Connect(s, init);
    hide Has, FoundBy, Finds, ConnectStep, Resolve;
    StepLeaves(before, last);
    forall part
      ensures FoundBy(s, attempts, part) <==> FoundBy(s, init, part) || Finds(s.clusterId, last, part)
      ensures Has(ConnectStep(before, last), part) <==> Has(before, part) || Finds(before.clusterId, last, part)
      ensures ConnectStep(before, last).clusterId == before.clusterId
    {
      FoundSnoc(s, attempts, part);
      StepFinds(before, last, part);
    }
  }

  lemma NothingFound(s: Connecting)
    requires s.agent.failure.None?
    ensures StillFinding(s, [], s) && !exists n: nat :: GetsConnected(s, [], n)
  {
  }

  /** A startup leaves step 0 in exactly the poll that is connected when each of the five parts has been found,
      in that poll or in one before: a part once found is never looked for again. */
  lemma {:induction false} ConnectedWhenAllFound(s: Connecting, attempts: seq<Attempt>)
    requires IsNew(s)
    ensures Connect(s, attempts).step > 0 <==> exists n: nat :: GetsConnected(s, attempts, n)
    ensures Connect(s, attempts).step == 0 ==> StillFinding(s, attempts, Connect(s, attempts))
    decreases |attempts|
  {
    hide StillFinding, GetsConnected, ConnectStep;
    if |attempts| == 0 {
      NothingFound(s);
      assert attempts == [];
    } else {
      var init := attempts[..|attempts| - 1];
      ConnectedWhenAllFound(s, init);
      ConnectedSnoc(s, attempts);
      if Connect(s, init).step == 0 {
        FindsOn(s, attempts);
      } else {
        StepForward(Connect(s, init), attempts[|attempts| - 1]);
      }
    }
  }

  // ---- The recovery state and the snapshot ----

  /** Step 1 takes position, time and term from the recovery counter, and goes on to the service where there is
      no term, else to the replay; unless the service has no entry in the counter, or the archive refuses. */
  lemma TakesExactly(s: Connecting, m: Meeting)
    ensures var t, c, id := TakeRecoveryState(s, m), m.counters, s.recoveryCounterId;
            var term := GetLeadershipTermId(c, id);
            var entry := GetSnapshotRecordingId(c, id, s.agent.config.serviceId);
            && t.agent.core == Core(s.agent.core.table, GetLogPosition(c, id), GetTimestamp(c, id), term)
            && t.agent.failure == (if term == NULL_VALUE then None
                                   else if entry == InvalidServiceId then Some(InvalidRecoveryService)
                                   else if entry == NoActiveCounter then Some(NoRecoveryCounter)
                                   else if m.archiveRefuses then Some(ArchiveRefused) else None)
            && t.step == (if term == NULL_VALUE then 3 else if t.agent.failure.Some? then s.step else 2)
            && t == s.(agent := s.agent.(core := t.agent.core, failure := t.agent.failure), step := t.step)
  {
    hide GetLogPosition, GetTimestamp, GetLeadershipTermId, GetSnapshotRecordingId;
  }

  /** One poll of the loader: at most ten fragments, put into the agent at once. It fails of the loader's
      exception, and, where nothing was read, of the archive's, or of an image that is closed. */
  ghost predicate LoadsTo(s: Connecting, l: Loading, m: Meeting, t: Connecting)
  {
    var (read, polled) := LoadPoll(l, 10, if m.imageClosed then 0 else m.available);
    && t.step == s.step && t.loader == Some(read) && t.agent.core.table == read.table
    && t.agent.journal == s.agent.journal + RestoredAll(SessionsIn(l.image[l.cursor..read.cursor]))
    && t.agent.failure == (if read.failure.Some? then read.failure
                           else if polled == 0 && m.archiveRefuses then Some(ArchiveRefused)
                           else if polled == 0 && m.imageClosed then Some(SnapshotEnded) else s.agent.failure)
  }

  lemma LoaderPollFails(s: Connecting, l: Loading, m: Meeting)
    ensures var (read, polled) := LoadPoll(l, 10, if m.imageClosed then 0 else m.available);
            var t := PollLoader(s, l, m);
            && t.step == s.step && t.loader == Some(read)
            && t.agent.failure == (if read.failure.Some? then read.failure
                                   else if polled == 0 && m.archiveRefuses then Some(ArchiveRefused)
                                   else if polled == 0 && m.imageClosed then Some(SnapshotEnded) else s.agent.failure)
  {
    hide LoadPoll, SessionsIn, RestoredAll;
  }

  lemma LoadsExactly(s: Connecting, l: Loading, m: Meeting)
    ensures LoadsTo(s, l, m, PollLoader(s, l, m))
  {
    var read := LoadPoll(l, FRAGMENT_LIMIT, if m.imageClosed then 0 else m.available).0;
    LoaderPutsIn(s, l, m);
    LoaderPollFails(s, l, m);
    PutInNotes(s, read, SessionsIn(l.image[l.cursor..read.cursor]), PollLoader(s, l, m).agent.failure);
    PutInTable(s, read, SessionsIn(l.image[l.cursor..read.cursor]));
    hide LoadPoll, SessionsIn, RestoredAll, PollLoader, PutIn;
  }

  lemma PutInTable(s: Connecting, read: Loading, sessions: seq<Session>)
    ensures PutIn(s, read, sessions).agent.core.table == read.table
  {
    hide RestoredAll;
  }

  /** Step 2 waits for the subscription of the replay and for its image, polls the loader until it is done, and
      leaves in the poll after. */
  lemma ReplaysExactly(s: Connecting, m: Meeting)
    requires s.step == 2 && s.agent.failure.None?
    ensures var t := ReplaySnapshot(s, m);
            var found := s.replayFound || m.replayFound;
            if !found then t == s
            else if s.loader.None? && m.snapshotImage.None? then t == s.(replayFound := true)
            else
              var l :=
                if s.loader.Some? then s.loader.value else StartLoading(s.agent.core.table, m.snapshotImage.value);
              if l.isDone then t == s.(replayFound := true, step := 3) else LoadsTo(s.(replayFound := true), l, m, t)
  {
    hide LoadsTo, PollLoader, StartLoading;
    var found := s.(replayFound := true);
    if (s.replayFound || m.replayFound) && (s.loader.Some? || m.snapshotImage.Some?) {
      LoadsExactly(found, LoaderOf(found, m), m);
    }
  }

  // ---- How many polls it takes ----

  /** A poll that meets all it waits for from step 2 on: the whole of the snapshot's image, a service that has
      started, and a claim that is granted. */
  predicate MeetsAll(a: Attempt, image: seq<SnapshotMessage>)
  {
    && a.Polled? && a.meeting.replayFound && a.meeting.snapshotImage == Some(image)
    && a.meeting.available >= |image| && !a.meeting.imageClosed && a.meeting.started
    && TryClaim(a.meeting.ackClaims) == CLAIMED
  }

  /** A poll of the loader that has enough available gets past END if that is among its fragments, else ten on. */
  lemma {:induction false} LoadsTen(l: Loading, limit: nat, available: nat, end: nat)
    requires !l.isDone && l.failure.None? && EndsAt(l.image, l.inSnapshot, l.cursor, end) && available >= |l.image|
    ensures var (r, polled) := LoadPoll(l, limit, available);
            && r.failure.None?
            && if end < l.cursor + limit then r.isDone && polled > 0
               else !r.isDone && r.cursor == l.cursor + limit && EndsAt(r.image, r.inSnapshot, r.cursor, end)
    decreases limit
  {
    if limit > 0 {
      var (next, action) := Consume(l);
      EndsAtNext(l.image, l.inSnapshot, l.cursor, end);
      if action == CONTINUE {
        hide EndsAt;
        LoadsTen(next, limit - 1, available, end);
      }
    }
  }

  /** On the way through step 2 with `k` polls of the loader done. */
  ghost predicate LoadingOn(s: Connecting, image: seq<SnapshotMessage>, end: nat, k: nat)
  {
    && s.step == 2 && s.agent.failure.None? && s.returned == 0
    && (if s.loader.None? then k == 0 && EndsAt(image, false, 0, end)
        else
          var l := s.loader.value;
          && s.replayFound && l.image == image && l.failure.None?
          && if k <= end / 10 then !l.isDone && l.cursor == 10 * k && EndsAt(image, l.inSnapshot, l.cursor, end)
             else k == end / 10 + 1 && l.isDone)
  }

  /** Where `k` such polls from the start of step 2 have led: the loader is polled once for every ten fragments up
      to END, then it is found done, then the service is called, and then the ack makes the agent active. */
  ghost predicate Stage(s: Connecting, image: seq<SnapshotMessage>, end: nat, k: nat)
  {
    s.agent.failure.None? &&
    if k <= end / 10 + 1 then LoadingOn(s, image, end, k)
    else if k == end / 10 + 2 then s.step == 3 && s.returned == 0
    else if k == end / 10 + 3 then s.step == 4 && s.returned == 0
    else k == end / 10 + 4 && s.step == 4 && s.returned == 1
  }

  lemma LoadsOn(s: Connecting, m: Meeting, image: seq<SnapshotMessage>, end: nat, k: nat)
    requires LoadingOn(s, image, end, k) && MeetsAll(Polled(m), image) && k <= end / 10
    ensures LoadingOn(ReplaySnapshot(s, m), image, end, k + 1)
  {
    hide ReplaySnapshot, LoadPoll, EndsAt, RestoredAll, SessionsIn, TryClaim;
    ReplaysExactly(s, m);
    KeepsReturned(s, m);
    var l := if s.loader.Some? then s.loader.value else StartLoading(s.agent.core.table, image);
    LoadsTen(l, 10, m.available, end);
  }

  lemma KeepsReturned(s: Connecting, m: Meeting)
    ensures ReplaySnapshot(s, m).returned == s.returned
    ensures s.replayFound || m.replayFound ==> ReplaySnapshot(s, m).replayFound
  {
    hide LoadPoll, SessionsIn, RestoredAll;
  }

  lemma LoadedLeaves(s: Connecting, m: Meeting, image: seq<SnapshotMessage>, end: nat)
    requires LoadingOn(s, image, end, end / 10 + 1) && MeetsAll(Polled(m), image)
    ensures var t := ReplaySnapshot(s, m); t.step == 3 && t.returned == 0 && t.agent.failure.None?
  {
    hide ReplaySnapshot, LoadPoll, EndsAt, TryClaim;
    ReplaysExactly(s, m);
  }

  lemma LoadingResolved(s: Connecting, m: Meeting, image: seq<SnapshotMessage>, end: nat, k: nat)
    requires LoadingOn(s, image, end, k)
    ensures LoadingOn(Resolve(s, m), image, end, k)
  {
    hide Search, EndsAt;
  }

  lemma NextStage(s: Connecting, a: Attempt, image: seq<SnapshotMessage>, end: nat, k: nat)
    requires Stage(s, image, end, k) && MeetsAll(a, image) && k < end / 10 + 4
    ensures Stage(ConnectStep(s, a), image, end, k + 1)
  {
    var m := a.meeting;
    if k <= end / 10 + 1 {
      LoadingResolved(s, m, image, end, k);
      assert s.step == 2;
      hide ReplaySnapshot, LoadingOn, Search, TryClaim;
      if k <= end / 10 {
        LoadsOn(Resolve(s, m), m, image, end, k);
        LoadingUnfailed(ReplaySnapshot(Resolve(s, m), m), image, end, k + 1);
      } else {
        LoadedLeaves(Resolve(s, m), m, image, end);
      }
    } else {
      hide Search, TryClaim;
    }
  }

  lemma LoadingUnfailed(s: Connecting, image: seq<SnapshotMessage>, end: nat, k: nat)
    requires LoadingOn(s, image, end, k)
    ensures s.agent.failure.None?
  {
  }

  /** From the start of step 2, with polls that meet all they wait for, the agent is returned in poll number
      `end / 10 + 4`, where `end` is the place of the snapshot's END, and in none before. */
  lemma {:induction false} ReturnsInPolls(s: Connecting, attempts: seq<Attempt>, image: seq<SnapshotMessage>, end: nat)
    requires Stage(s, image, end, 0) && |attempts| <= end / 10 + 4
    requires forall a | a in attempts :: MeetsAll(a, image)
    ensures Stage(Connect(s, attempts), image, end, |attempts|)
    ensures Connect(s, attempts).returned == if |attempts| == end / 10 + 4 then 1 else 0
    decreases |attempts|
  {
    hide MeetsAll, ConnectStep, Stage;
    if |attempts| > 0 {
      var init := attempts[..|attempts| - 1];
      ReturnsInPolls(s, init, image, end);
      NextStage(Connect(s, init), attempts[|attempts| - 1], image, end, |init|);
    }
    StageReturned(Connect(s, attempts), image, end, |attempts|);
  }

  lemma StageReturned(s: Connecting, image: seq<SnapshotMessage>, end: nat, k: nat)
    requires Stage(s, image, end, k)
    ensures s.returned == if k == end / 10 + 4 then 1 else 0
  {
  }

  /** The first poll of a startup finds and is given everything, a term and an entry for the service included. */
  predicate MeetsAllAtOnce(s: Connecting, m: Meeting)
  {
    && AllResolved(Resolve(s, m)) && m.isConnected && !m.archiveRefuses
    && var id := Resolve(s, m).recoveryCounterId;
       && GetLeadershipTermId(m.counters, id) != NULL_VALUE
       && GetSnapshotRecordingId(m.counters, id, s.agent.config.serviceId).RecordingId?
  }

  lemma EntersStep2(s: Connecting, m: Meeting, image: seq<SnapshotMessage>, end: nat)
    requires IsNew(s) && MeetsAllAtOnce(s, m) && EndsAt(image, false, 0, end)
    ensures Stage(ConnectStep(s, Polled(m)), image, end, 0)
  {
    var r := Resolve(s, m).(step := 1);
    hide Search, TakeRecoveryState, EndsAt, GetLogPosition, GetTimestamp, GetLeadershipTermId, GetSnapshotRecordingId;
    TakesExactly(r, m);
  }

  lemma {:induction false} ConnectFirst(s: Connecting, a: Attempt, rest: seq<Attempt>)
    ensures Connect(s, [a] + rest) == Connect(ConnectStep(s, a), rest)
    decreases |rest|
  {
    hide ConnectStep;
    var all := [a] + rest;
    if rest == [] {
      assert all[..0] == [];
      assert Connect(s, all) == ConnectStep(Connect(s, []), a);
    } else {
      assert all[..|all| - 1] == [a] + rest[..|rest| - 1];
      ConnectFirst(s, a, rest[..|rest| - 1]);
    }
  }

  /** A startup that is given everything as soon as it looks for it returns the agent in poll number
      `end / 10 + 5`, where `end` is the place of the snapshot's END, and in none before. */
  lemma StartsInPolls(s: Connecting, first: Meeting, rest: seq<Attempt>, image: seq<SnapshotMessage>, end: nat)
    requires IsNew(s) && MeetsAllAtOnce(s, first) && EndsAt(image, false, 0, end)
    requires |rest| <= end / 10 + 4 && forall a | a in rest :: MeetsAll(a, image)
    ensures var t := Connect(s, [Polled(first)] + rest);
            t.agent.failure.None? && t.returned == if |rest| == end / 10 + 4 then 1 else 0
  {
    hide *;
    EntersStep2(s, first, image, end);
    ConnectFirst(s, Polled(first), rest);
    ReturnsInPolls(ConnectStep(s, Polled(first)), rest, image, end);
    StageUnfailed(Connect(ConnectStep(s, Polled(first)), rest), image, end, |rest|);
  }

  lemma StageUnfailed(s: Connecting, image: seq<SnapshotMessage>, end: nat, k: nat)
    requires Stage(s, image, end, k)
    ensures s.agent.failure.None?
  {
  }
}
