/** Recoveries that go wrong, each a startup from first to last: a counter without a term, and a
    snapshot with a repeated session id. */
module RecoveryFailures {
  import opened Aeron
  import opened SessionTable
  import opened ReplicatedState
  import opened Snapshots
  import opened AgentSpec
  import opened Journals
  import opened AckNumbers
  import opened Invariants
  import opened Counters
  import opened Startup
  import opened StartupProofs
  import opened Recovery

  // ---- The world such a startup meets ----

  /** A commit position counter and a recovery counter at log position 64 and time 5, both of cluster 0. */
  function TwoCounters(leadershipTermId: Int64, recordingIds: seq<Int64>): CountersReader
    requires |recordingIds| < 0x8000_0000
  {
    CountersReader([Record(RECORD_ALLOCATED, COMMIT_POSITION_TYPE_ID, [0]),
                    Record(RECORD_ALLOCATED, RECOVERY_STATE_TYPE_ID,
                           RecoveryKey(leadershipTermId, 64, 5, 0, recordingIds)),
                    Record(RECORD_UNUSED, 0, [])], 2)
  }

  lemma TwoCountersRead(leadershipTermId: Int64, recordingIds: seq<Int64>)
    requires |recordingIds| < 0x8000_0000
    ensures var c := TwoCounters(leadershipTermId, recordingIds);
            && Search(c, Wanted(COMMIT_POSITION_TYPE_ID, CLUSTER_KEY_OFFSET, 0), 0) == 0
            && Search(c, WantedRecovery(0), 0) == 1
            && GetLogPosition(c, 1) == 64 && GetTimestamp(c, 1) == 5 && GetLeadershipTermId(c, 1) == leadershipTermId
            && (|recordingIds| > 0 ==> GetSnapshotRecordingId(c, 1, 0) == RecordingId(recordingIds[0]))
  {
    var c := TwoCounters(leadershipTermId, recordingIds);
    RecoveryCounterRead(c, 1, leadershipTermId, 64, 5, 0, recordingIds, 0);
    hide RecoveryKey, Int64At;
    assert Matches(c.records[0], Wanted(COMMIT_POSITION_TYPE_ID, CLUSTER_KEY_OFFSET, 0));
    assert !Matches(c.records[0], WantedRecovery(0)) && Matches(c.records[1], WantedRecovery(0));
    assert Search(c, WantedRecovery(0), 1) == 1;
  }

  /** A poll that finds everything, with these counters and this image. */
  function FindingAll(counters: CountersReader, image: Option<seq<SnapshotMessage>>, available: nat): Meeting
  {
    Meeting(true, true, true, counters, true, true, false, image, available, false, false, [])
  }

  lemma OnePoll(s: Connecting, m: Meeting)
    ensures Connect(s, [Polled(m)]) == ConnectPoll(s, m)
  {
    hide ConnectPoll;
    assert [Polled(m)][..0] == [];
    assert Connect(s, []) == s;
  }

  lemma ThreePolls(s: Connecting, a: Meeting, b: Meeting, c: Meeting)
    ensures Connect(s, [Polled(a), Polled(b), Polled(c)]) == ConnectPoll(ConnectPoll(ConnectPoll(s, a), b), c)
  {
    hide ConnectPoll;
    OnePoll(s, a);
    assert [Polled(a), Polled(b)][..1] == [Polled(a)];
    assert Connect(s, [Polled(a), Polled(b)]) == ConnectPoll(Connect(s, [Polled(a)]), b);
    assert [Polled(a), Polled(b), Polled(c)][..2] == [Polled(a), Polled(b)];
  }

  /** The first poll finds everything and reads the recovery counter. */
  lemma FirstPoll(s: Connecting, leadershipTermId: Int64, recordingIds: seq<Int64>,
                  image: Option<seq<SnapshotMessage>>, available: nat)
    requires IsNew(s) && s.clusterId == 0 && |recordingIds| < 0x8000_0000
    requires leadershipTermId == NULL_VALUE || (|recordingIds| > 0 && s.agent.config.serviceId == 0)
    ensures var t := ConnectPoll(s, FindingAll(TwoCounters(leadershipTermId, recordingIds), image, available));
            && t.agent == s.agent.(core := Core(NO_SESSIONS, 64, 5, leadershipTermId))
            && t.loader == None && t.step == (if leadershipTermId == NULL_VALUE then 3 else 2)
  {
    TwoCountersRead(leadershipTermId, recordingIds);
    hide Search, GetLogPosition, GetTimestamp, GetLeadershipTermId, GetSnapshotRecordingId, TwoCounters;
  }

  // ---- Without a term ----

  /** The log before the snapshot: one session opened, in a cluster that has no term yet. */
  const OPENED := [Entry(SessionOpenEvent(1, 7, 5, 1, "", []), 64)]

  lemma OpenedReplay(core: Core)
    requires core == Core(NO_SESSIONS, 0, 0, NULL_VALUE)
    ensures var taken := Replay(core, OPENED);
            && taken.failure.None? && 7 in taken.core.table.byId
            && taken.core.logPosition == 64 && taken.core.clusterTime == 5 && taken.core.leadershipTermId == NULL_VALUE
  {
    assert OPENED[..0] == [];
    assert Replay(core, OPENED) == Then(Replay(core, []), OPENED[0]);
  }

  /** A snapshot of that state and a recovery counter that shows it, without a term: the startup reaches
      the service with no session at all, and what it replays from there is not the whole log. */
  lemma TermlessRecoveryLosesSessions(s: Connecting)
    requires IsNew(s) && s.clusterId == 0
    ensures var core := Core(NO_SESSIONS, 0, 0, NULL_VALUE);
            var taken := Replay(core, OPENED).core;
            var r := RecoveryRecord(1, taken, SnapshotOf(taken.table.sessions, 64, NULL_VALUE, 0));
            var attempts := [Polled(FindingAll(TwoCounters(NULL_VALUE, []), Some(r.snapshot), 3))];
            var t := Connect(s, attempts);
            && IsRecordOf(r, taken, 0, []) && Shows(r, s.clusterId, attempts)
            && t.step == 3 && t.agent.failure.None?
            && 7 in taken.table.byId && t.agent.core.table == NO_SESSIONS
            && !ReplaysWhole(core, OPENED, [], t.agent.core)
  {
    hide SnapshotOf, TwoCounters;
    var core := Core(NO_SESSIONS, 0, 0, NULL_VALUE);
    var taken := Replay(core, OPENED).core;
    var snapshot := SnapshotOf(taken.table.sessions, 64, NULL_VALUE, 0);
    OpenedReplay(core);
    TwoCountersRead(NULL_VALUE, []);
    FirstPoll(s, NULL_VALUE, [], Some(snapshot), 3);
    OnePoll(s, FindingAll(TwoCounters(NULL_VALUE, []), Some(snapshot), 3));
    assert snapshot + [] == snapshot && OPENED + [] == OPENED;
    hide Replay, ConnectPoll;
    NothingAppended(core, Core(NO_SESSIONS, 64, 5, NULL_VALUE));
  }

  lemma NothingAppended(core: Core, recovered: Core)
    ensures Replay(recovered, []).core == recovered
    ensures ReplaysWhole(core, OPENED, [], recovered) ==> Replay(core, OPENED).core == recovered
  {
    assert OPENED + [] == OPENED;
  }

  // ---- With a repeated id ----

  /** A snapshot of two sessions under one id. */
  function RepeatedId(): seq<SnapshotMessage>
  {
    [Marker(BEGIN, 64, 1, 0), ClientSessionRecord(Session(7, 1, "", [])), ClientSessionRecord(Session(7, 2, "", [])),
     Marker(END, 64, 1, 0)]
  }

  lemma RepeatedIdLoads()
    ensures var image := RepeatedId();
            var l := LoadPoll(StartLoading(NO_SESSIONS, image), FRAGMENT_LIMIT, 4).0;
            l.isDone && l.failure.None? && l.cursor == 4 && l.image == image
  {
    hide Add;
    var image := RepeatedId();
    var l0 := StartLoading(NO_SESSIONS, image);
    var l1, l2, l3 := Consume(l0).0, Consume(Consume(l0).0).0, Consume(Consume(Consume(l0).0).0).0;
    assert Consume(l0).1 == CONTINUE && Consume(l1).1 == CONTINUE && Consume(l2).1 == CONTINUE
           && Consume(l3).1 == BREAK;
    hide Consume, RepeatedId;
    assert LoadPoll(l3, 7, 4).0 == Consume(l3).0;
    assert LoadPoll(l2, 8, 4).0 == LoadPoll(l3, 7, 4).0;
    assert LoadPoll(l1, 9, 4).0 == LoadPoll(l2, 8, 4).0;
  }

  lemma SecondPoll(s: Connecting, counters: CountersReader)
    requires s.step == 2 && s.loader.None? && s.agent.failure.None? && s.agent.core.table == NO_SESSIONS
    ensures var t := ConnectPoll(s, FindingAll(counters, Some(RepeatedId()), 4));
            && t.step == 2 && t.agent.failure.None? && t.loader.Some?
            && t.loader.value.isDone && t.loader.value.image == RepeatedId() && t.loader.value.cursor == 4
  {
    RepeatedIdLoads();
    hide Search, RepeatedId, LoadPoll, SessionsIn, RestoredAll;
  }

  lemma ThirdPoll(s: Connecting, m: Meeting)
    requires s.step == 2 && s.replayFound && s.agent.failure.None? && s.loader.Some? && s.loader.value.isDone
    ensures ConnectPoll(s, m).step == 3 && ConnectPoll(s, m).agent == s.agent && ConnectPoll(s, m).loader == s.loader
  {
    hide Search, PollLoader;
  }

  lemma ReplayStaysFound(s: Connecting, counters: CountersReader, image: seq<SnapshotMessage>, available: nat)
    requires s.step == 2 && s.agent.failure.None?
    ensures ConnectPoll(s, FindingAll(counters, Some(image), available)).replayFound
  {
    hide Search, LoadPoll, SessionsIn, RestoredAll;
  }

  /** Three polls bring the agent to its service with both sessions in the vector and one of them in
      the map: the invariant every run keeps does not hold of it. */
  lemma RepeatedIdIsUnsound(s: Connecting)
    requires IsNew(s) && s.clusterId == 0 && s.agent.config.serviceId == 0
    ensures var m := FindingAll(TwoCounters(1, [9]), Some(RepeatedId()), 4);
            var t := Connect(s, [Polled(m), Polled(m), Polled(m)]);
            t.step == 3 && t.agent.failure.None? && !Agrees(t.agent.core.table) && !Inv(t.agent)
  {
    hide ConnectPoll, TwoCounters, RepeatedId, Inv, Agrees, FindingAll, Connect;
    var m := FindingAll(TwoCounters(1, [9]), Some(RepeatedId()), 4);
    var first, second := ConnectPoll(s, m), ConnectPoll(ConnectPoll(s, m), m);
    FirstPoll(s, 1, [9], Some(RepeatedId()), 4);
    SecondPoll(first, TwoCounters(1, [9]));
    ReplayStaysFound(first, TwoCounters(1, [9]), RepeatedId(), 4);
    ThirdPoll(second, m);
    ThreePolls(s, m, m, m);
    RepeatedSessions();
    SoundIffDistinct(s, [Polled(m), Polled(m), Polled(m)]);
  }

  lemma RepeatedSessions()
    ensures |RepeatedId()| == 4 && !AllNew(NO_SESSIONS, SessionsIn(RepeatedId()[..4]))
  {
    var image := RepeatedId();
    var a, b := Session(7, 1, "", []), Session(7, 2, "", []);
    SessionsInAppend([image[0]], image[1..]);
    SessionsInAppend([image[1]], image[2..]);
    SessionsInAppend([image[2]], image[3..]);
    assert image[..4] == image && image == [image[0]] + image[1..] && image[1..] == [image[1]] + image[2..];
    assert image[2..] == [image[2]] + image[3..] && image[3..] == [image[3]];
    assert SessionsIn([image[0]]) == [] && SessionsIn([image[1]]) == [a] && SessionsIn([image[2]]) == [b]
           && SessionsIn([image[3]]) == [];
    assert SessionsIn(image) == [] + ([a] + ([b] + []));
    assert SessionsIn(image)[0].id == SessionsIn(image)[1].id;
  }
}
