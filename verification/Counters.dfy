/** The two searches over the counters' metadata, and what the recovery counter's key holds. */
module Counters {
  import opened Aeron

  const NULL_COUNTER_ID := -1

  // As Aeron's registry of counter types has them.
  const COMMIT_POSITION_TYPE_ID := 203
  const RECOVERY_STATE_TYPE_ID := 204

  type Word = w: int | 0 <= w < 0x1_0000_0000

  datatype RecordState = RECORD_UNUSED | RECORD_ALLOCATED | RECORD_RECLAIMED

  /** One record of the metadata: its state, its type, and from its key on the buffer's 32-bit words. */
  datatype Record = Record(state: RecordState, typeId: int, key: seq<Word>)

  /** The counters, of which the searches look at those below `maxCounterId` only. */
  datatype AnyCountersReader = CountersReader(records: seq<Record>, maxCounterId: nat)

  type CountersReader = c: AnyCountersReader | c.maxCounterId <= |c.records| witness CountersReader([], 0)

  function WordAt(key: seq<Word>, i: nat): Word { if i < |key| then key[i] else 0 }

  function Int32At(key: seq<Word>, offset: nat): int
  {
    var w := WordAt(key, offset / 4);
    if w >= 0x8000_0000 then w - 0x1_0000_0000 else w
  }

  function Int64At(key: seq<Word>, offset: nat): int
  {
    var w := WordAt(key, offset / 4) + 0x1_0000_0000 * WordAt(key, offset / 4 + 1);
    if w >= 0x8000_0000_0000_0000 then w - 0x1_0000_0000_0000_0000 else w
  }

  // ---- Searching ----

  /** What a search wants: the counter's type, and the cluster id at an offset of its key. */
  datatype Wanted = Wanted(typeId: int, offset: nat, clusterId: int)

  predicate Matches(r: Record, wanted: Wanted)
  {
    r.state.RECORD_ALLOCATED? && r.typeId == wanted.typeId && Int32At(r.key, wanted.offset) == wanted.clusterId
  }

  /** A match with neither a match nor an unused record before it. */
  ghost predicate IsFound(c: CountersReader, wanted: Wanted, i: int)
  {
    && 0 <= i < c.maxCounterId && Matches(c.records[i], wanted)
    && forall j | 0 <= j < i :: !Matches(c.records[j], wanted) && !c.records[j].state.RECORD_UNUSED?
  }

  /** The search from record `i` on. */
  function Search(c: CountersReader, wanted: Wanted, i: nat): (r: int)
    ensures i <= r < c.maxCounterId || r == NULL_COUNTER_ID
    decreases c.maxCounterId - i
  {
    if i >= c.maxCounterId then NULL_COUNTER_ID
    else if Matches(c.records[i], wanted) then i
    else if c.records[i].state.RECORD_UNUSED? then NULL_COUNTER_ID
    else Search(c, wanted, i + 1)
  }

  lemma {:induction false} SearchFrom(c: CountersReader, wanted: Wanted, i: nat, r: int)
    requires i <= c.maxCounterId
    requires forall j | 0 <= j < i :: !Matches(c.records[j], wanted) && !c.records[j].state.RECORD_UNUSED?
    ensures IsFound(c, wanted, r) ==> Search(c, wanted, i) == r
    ensures Search(c, wanted, i) == NULL_COUNTER_ID || IsFound(c, wanted, Search(c, wanted, i))
    decreases c.maxCounterId - i
  {
    if i < c.maxCounterId && !Matches(c.records[i], wanted) && !c.records[i].state.RECORD_UNUSED? {
      SearchFrom(c, wanted, i + 1, r);
    }
  }

  /** The lowest match in the searched range, wherever the unused records are. */
  ghost predicate IsLowest(c: CountersReader, wanted: Wanted, i: int)
  {
    && 0 <= i < c.maxCounterId && Matches(c.records[i], wanted)
    && forall j | 0 <= j < i :: !Matches(c.records[j], wanted)
  }

  predicate UnusedBefore(c: CountersReader, i: nat)
  {
    exists j | 0 <= j < i && j < |c.records| :: c.records[j].state.RECORD_UNUSED?
  }

  /** A search answers the lowest match if and only if no unused record comes before it. */
  lemma FindsLowestIffNoneUnusedBefore(c: CountersReader, wanted: Wanted, i: nat)
    requires IsLowest(c, wanted, i)
    ensures Search(c, wanted, 0) == i <==> !UnusedBefore(c, i)
    ensures UnusedBefore(c, i) ==> Search(c, wanted, 0) == NULL_COUNTER_ID
  {
    SearchFrom(c, wanted, 0, i);
    SearchFrom(c, wanted, 0, Search(c, wanted, 0));
    assert IsFound(c, wanted, i) <==> !UnusedBefore(c, i);
    assert forall r | r != i :: !UnusedBefore(c, i) || !IsFound(c, wanted, r);
  }

  ghost predicate UnusedIsSuffix(c: CountersReader)
  {
    forall j, k | 0 <= j < k < |c.records| && c.records[j].state.RECORD_UNUSED? :: c.records[k].state.RECORD_UNUSED?
  }

  /** Where unused records only come last, a search answers the lowest match, and none exactly when
      there is none. */
  lemma SearchIsCompleteWhenDense(c: CountersReader, wanted: Wanted, r: int)
    requires UnusedIsSuffix(c)
    ensures IsLowest(c, wanted, r) ==> Search(c, wanted, 0) == r
    ensures Search(c, wanted, 0) == NULL_COUNTER_ID <==>
            forall i | 0 <= i < c.maxCounterId :: !Matches(c.records[i], wanted)
  {
    var found := Search(c, wanted, 0);
    SearchFrom(c, wanted, 0, found);
    if i :| 0 <= i < c.maxCounterId && Matches(c.records[i], wanted) {
      var lowest := Lowest(c, wanted, i);
      FindsLowestIffNoneUnusedBefore(c, wanted, lowest);
    }
  }

  lemma {:induction false} Lowest(c: CountersReader, wanted: Wanted, i: nat) returns (lowest: nat)
    requires i < c.maxCounterId && Matches(c.records[i], wanted)
    ensures IsLowest(c, wanted, lowest)
    decreases i
  {
    lowest := i;
    if j: nat :| j < i && Matches(c.records[j], wanted) {
      lowest := Lowest(c, wanted, j);
    }
  }

  const CLUSTER_KEY_OFFSET := 0
  const CLUSTER_ID_OFFSET := 24

  function WantedRecovery(clusterId: int): Wanted { Wanted(RECOVERY_STATE_TYPE_ID, CLUSTER_ID_OFFSET, clusterId) }

  /** `RecoveryState::findCounter` */
  method FindRecoveryCounter(c: CountersReader, clusterId: int) returns (id: int)
    ensures id == Search(c, WantedRecovery(clusterId), 0)
    ensures id == NULL_COUNTER_ID <==> forall i :: !IsFound(c, WantedRecovery(clusterId), i)
    ensures id != NULL_COUNTER_ID ==> IsFound(c, WantedRecovery(clusterId), id)
  {
    ghost var wanted := WantedRecovery(clusterId);
    id := NULL_COUNTER_ID;
    var i := 0;
    while i < c.maxCounterId
      invariant i <= c.maxCounterId
      invariant forall j | 0 <= j < i :: !Matches(c.records[j], wanted) && !c.records[j].state.RECORD_UNUSED?
      invariant Search(c, wanted, 0) == Search(c, wanted, i)
    {
      var r := c.records[i];
      if r.state.RECORD_ALLOCATED? && r.typeId == RECOVERY_STATE_TYPE_ID {
        if Int32At(r.key, CLUSTER_ID_OFFSET) == clusterId {
          SearchFrom(c, wanted, i, i);
          return i;
        }
      } else if r.state.RECORD_UNUSED? {
        break;
      }
      i := i + 1;
    }
  }

  /** `ClusterCounters::find` */
  method FindClusterCounter(c: CountersReader, typeId: int, clusterId: int) returns (id: int)
    ensures id == Search(c, Wanted(typeId, CLUSTER_KEY_OFFSET, clusterId), 0)
    ensures id == NULL_COUNTER_ID <==> forall i :: !IsFound(c, Wanted(typeId, CLUSTER_KEY_OFFSET, clusterId), i)
    ensures id != NULL_COUNTER_ID ==> IsFound(c, Wanted(typeId, CLUSTER_KEY_OFFSET, clusterId), id)
  {
    ghost var wanted := Wanted(typeId, CLUSTER_KEY_OFFSET, clusterId);
    id := NULL_COUNTER_ID;
    var i := 0;
    while i < c.maxCounterId
      invariant i <= c.maxCounterId
      invariant forall j | 0 <= j < i :: !Matches(c.records[j], wanted) && !c.records[j].state.RECORD_UNUSED?
      invariant Search(c, wanted, 0) == Search(c, wanted, i)
    {
      var r := c.records[i];
      if r.state.RECORD_ALLOCATED? {
        if r.typeId == typeId && Int32At(r.key, CLUSTER_KEY_OFFSET) == clusterId {
          SearchFrom(c, wanted, i, i);
          return i;
        }
      } else if r.state.RECORD_UNUSED? {
        break;
      }
      i := i + 1;
    }
  }

  // ---- The recovery counter ----

  const LEADERSHIP_TERM_ID_OFFSET := 0
  const LOG_POSITION_OFFSET := 8
  const TIMESTAMP_OFFSET := 16
  const SERVICE_COUNT_OFFSET := 28
  const SNAPSHOT_RECORDING_IDS_OFFSET := 32

  /** The counter is allocated and of the recovery state's type. */
  predicate IsRecoveryCounter(c: CountersReader, id: int)
  {
    0 <= id < |c.records| && c.records[id].state.RECORD_ALLOCATED? && c.records[id].typeId == RECOVERY_STATE_TYPE_ID
  }

  function ReadRecovery(c: CountersReader, id: int, offset: nat): int
  {
    if IsRecoveryCounter(c, id) then Int64At(c.records[id].key, offset) else NULL_VALUE
  }

  function GetLeadershipTermId(c: CountersReader, id: int): int { ReadRecovery(c, id, LEADERSHIP_TERM_ID_OFFSET) }

  function GetLogPosition(c: CountersReader, id: int): int { ReadRecovery(c, id, LOG_POSITION_OFFSET) }

  function GetTimestamp(c: CountersReader, id: int): int { ReadRecovery(c, id, TIMESTAMP_OFFSET) }

  datatype RecordingId = RecordingId(value: int) | InvalidServiceId | NoActiveCounter

  function GetSnapshotRecordingId(c: CountersReader, id: int, serviceId: int): RecordingId
  {
    if !IsRecoveryCounter(c, id) then NoActiveCounter
    else
      var key := c.records[id].key;
      if serviceId < 0 || serviceId >= Int32At(key, SERVICE_COUNT_OFFSET) then InvalidServiceId
      else RecordingId(Int64At(key, SNAPSHOT_RECORDING_IDS_OFFSET + serviceId * 8))
  }

  type Int32 = x: int | -0x8000_0000 <= x < 0x8000_0000
  type Int64 = x: int | -0x8000_0000_0000_0000 <= x < 0x8000_0000_0000_0000

  function Word32(x: Int32): seq<Word> { [if x < 0 then x + 0x1_0000_0000 else x] }

  function Words64(x: Int64): (r: seq<Word>)
    ensures |r| == 2
  {
    var u := if x < 0 then x + 0x1_0000_0000_0000_0000 else x;
    [u % 0x1_0000_0000, u / 0x1_0000_0000]
  }

  function AllWords64(xs: seq<Int64>): (r: seq<Word>)
    ensures |r| == 2 * |xs|
  {
    if xs == [] then [] else Words64(xs[0]) + AllWords64(xs[1..])
  }

  /** The key of a recovery counter as its offsets lay it out. */
  function RecoveryKey(leadershipTermId: Int64, logPosition: Int64, timestamp: Int64, clusterId: Int32,
                       recordingIds: seq<Int64>): seq<Word>
    requires |recordingIds| < 0x8000_0000
  {
    Words64(leadershipTermId) + Words64(logPosition) + Words64(timestamp)
    + Word32(clusterId) + Word32(|recordingIds|) + AllWords64(recordingIds)
  }

  /** At word `i` of the key stand the words of `x`. */
  ghost predicate HoldsAt(key: seq<Word>, i: nat, x: Int64)
  {
    i + 2 <= |key| && key[i] == Words64(x)[0] && key[i + 1] == Words64(x)[1]
  }

  lemma {:induction false} RecordingIdAt(xs: seq<Int64>, i: nat)
    requires i < |xs|
    ensures HoldsAt(AllWords64(xs), 2 * i, xs[i])
  {
    if i > 0 {
      RecordingIdAt(xs[1..], i - 1);
    }
  }

  lemma HeldWords(key: seq<Word>, i: nat, x: Int64)
    requires HoldsAt(key, i, x)
    ensures Int64At(key, 4 * i) == x
  {
  }

  lemma SixParts(a: seq<Word>, b: seq<Word>, c: seq<Word>, d: seq<Word>, e: seq<Word>, rest: seq<Word>)
    requires |a| == |b| == |c| == 2 && |d| == |e| == 1
    ensures var key := a + b + c + d + e + rest;
            && |key| == 8 + |rest|
            && key[0] == a[0] && key[1] == a[1] && key[2] == b[0] && key[3] == b[1] && key[4] == c[0] && key[5] == c[1]
            && key[6] == d[0] && key[7] == e[0]
            && forall k | 0 <= k < |rest| :: key[8 + k] == rest[k]
  {
  }

  lemma KeyHolds(key: seq<Word>, leadershipTermId: Int64, logPosition: Int64, timestamp: Int64, clusterId: Int32,
                 recordingIds: seq<Int64>)
    requires |recordingIds| < 0x8000_0000
    requires key == RecoveryKey(leadershipTermId, logPosition, timestamp, clusterId, recordingIds)
    ensures HoldsAt(key, 0, leadershipTermId) && HoldsAt(key, 2, logPosition) && HoldsAt(key, 4, timestamp)
    ensures |key| >= 8 && key[6] == Word32(clusterId)[0] && key[7] == Word32(|recordingIds|)[0]
    ensures forall i | 0 <= i < |recordingIds| :: HoldsAt(key, 8 + 2 * i, recordingIds[i])
  {
    hide AllWords64, Words64;
    var rest := AllWords64(recordingIds);
    SixParts(Words64(leadershipTermId), Words64(logPosition), Words64(timestamp), Word32(clusterId),
             Word32(|recordingIds|), rest);
    forall i | 0 <= i < |recordingIds| ensures HoldsAt(key, 8 + 2 * i, recordingIds[i]) {
      RecordingIdAt(recordingIds, i);
      assert key[8 + 2 * i] == rest[2 * i] && key[8 + (2 * i + 1)] == rest[2 * i + 1];
    }
  }

  /** The getters read back what a recovery counter's key holds; a service without a recording id in
      it, or a counter that is none, is an error. */
  lemma RecoveryCounterRead(c: CountersReader, id: nat, leadershipTermId: Int64, logPosition: Int64, timestamp: Int64,
                            clusterId: Int32, recordingIds: seq<Int64>, serviceId: int)
    requires id < |c.records| && |recordingIds| < 0x8000_0000
    requires c.records[id].key == RecoveryKey(leadershipTermId, logPosition, timestamp, clusterId, recordingIds)
    ensures IsRecoveryCounter(c, id) ==>
              && Matches(c.records[id], WantedRecovery(clusterId))
              && GetLeadershipTermId(c, id) == leadershipTermId
              && GetLogPosition(c, id) == logPosition
              && GetTimestamp(c, id) == timestamp
    ensures GetSnapshotRecordingId(c, id, serviceId) ==
            if !IsRecoveryCounter(c, id) then NoActiveCounter
            else if 0 <= serviceId < |recordingIds| then RecordingId(recordingIds[serviceId])
            else InvalidServiceId
  {
    hide RecoveryKey, HoldsAt, Int64At;
    var key := c.records[id].key;
    KeyHolds(key, leadershipTermId, logPosition, timestamp, clusterId, recordingIds);
    HeldWords(key, 0, leadershipTermId);
    HeldWords(key, 2, logPosition);
    HeldWords(key, 4, timestamp);
    if 0 <= serviceId < |recordingIds| {
      HeldWords(key, 8 + 2 * serviceId, recordingIds[serviceId]);
    }
  }
}
