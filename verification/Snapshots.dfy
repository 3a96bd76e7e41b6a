/** The snapshot stream: what the taker writes and what the loader makes of it. */
module Snapshots {
  import opened Aeron
  import opened SessionTable
  import opened ReplicatedState

  const SNAPSHOT_TYPE_ID := 2

  datatype Mark = BEGIN | END | SECTION | NULL_MARK

  datatype SnapshotMessage =
    | SnapshotMarker(typeId: int, logPosition: int, leadershipTermId: int, index: int, mark: Mark, appVersion: int)
    | ClientSessionRecord(session: Session)
    | ServiceData(bytes: Bytes)      // a template the loader skips
    | ForeignSchema

  function Marker(mark: Mark, logPosition: int, leadershipTermId: int, appVersion: int): SnapshotMessage
  {
    SnapshotMarker(SNAPSHOT_TYPE_ID, logPosition, leadershipTermId, 0, mark, appVersion)
  }

  function Records(sessions: seq<Session>): (r: seq<SnapshotMessage>)
    ensures |r| == |sessions|
    ensures forall i | 0 <= i < |r| :: r[i] == ClientSessionRecord(sessions[i])
  {
    seq(|sessions|, i requires 0 <= i < |sessions| => ClientSessionRecord(sessions[i]))
  }

  /** What `snapshotState` writes. */
  function SnapshotOf(sessions: seq<Session>, logPosition: int, leadershipTermId: int,
                      appVersion: int): seq<SnapshotMessage>
  {
    [Marker(BEGIN, logPosition, leadershipTermId, appVersion)] + Records(sessions) +
    [Marker(END, logPosition, leadershipTermId, appVersion)]
  }

  const FRAGMENT_LIMIT := 10

  /** The loader with the table it fills, the image it reads and its place in it. */
  datatype AnyLoading = Loading(
    inSnapshot: bool, isDone: bool, appVersion: int, table: Table,
    image: seq<SnapshotMessage>, cursor: nat, failure: Option<Failure>)

  type Loading = l: AnyLoading | l.cursor <= |l.image| witness Loading(false, false, 0, NO_SESSIONS, [], 0, None)

  /** `ServiceSnapshotLoader::onFragment` */
  function OnSnapshotFragment(l: Loading, m: SnapshotMessage): (r: (Loading, Action))
    ensures r.0.image == l.image && r.0.cursor == l.cursor
  {
    match m
    case ForeignSchema => (l.(failure := Some(UnexpectedSchema)), THROWN)
    case SnapshotMarker(typeId, _, _, _, mark, appVersion) =>
      if typeId != SNAPSHOT_TYPE_ID then (l.(failure := Some(UnexpectedSnapshotType)), THROWN)
      else (
        match mark
        case BEGIN =>
          if l.inSnapshot then (l.(failure := Some(AlreadyInSnapshot)), THROWN)
          else (l.(inSnapshot := true, appVersion := appVersion), CONTINUE)
        case END =>
          if !l.inSnapshot then (l.(failure := Some(MissingBegin)), THROWN)
          else (l.(isDone := true), BREAK)
        case _ => (l, CONTINUE)
      )
    case ClientSessionRecord(session) =>
      (l.(table := Add(l.table, session)), CONTINUE)
    case ServiceData(_) => (l, CONTINUE)
  }

  /** One fragment; a handler that throws leaves it unconsumed. */
  function Consume(l: Loading): (r: (Loading, Action))
    requires l.cursor < |l.image|
    ensures r.0.image == l.image
    ensures r.1 != THROWN ==> r.0.cursor == l.cursor + 1 && r.0.failure == l.failure
    ensures r.1 == THROWN ==> r.0.cursor == l.cursor && r.0.failure.Some?
    ensures r.0.isDone <==> l.isDone || r.1 == BREAK
  {
    var (next, action) := OnSnapshotFragment(l, l.image[l.cursor]);
    (if action == THROWN then next else next.(cursor := l.cursor + 1), action)
  }

  /** `controlledPoll`: at most `limit` fragments of those `available`, stopping at a BREAK or a failure. */
  function LoadPoll(l: Loading, limit: nat, available: nat): (r: (Loading, nat))
    ensures r.0.image == l.image && l.cursor <= r.0.cursor && r.0.cursor == l.cursor + r.1 && r.1 <= limit
    decreases limit
  {
    if limit == 0 || l.cursor >= available || l.cursor >= |l.image| then (l, 0)
    else
      var (next, action) := Consume(l);
      if action == THROWN then (next, 0)
      else if action == BREAK then (next, 1)
      else
        var (last, polled) := LoadPoll(next, limit - 1, available);
        (last, polled + 1)
  }

  /** Loading with no limit at all: to the END marker, a failure, or the end of the image. */
  function LoadAll(l: Loading): (r: Loading)
    ensures r.image == l.image && l.cursor <= r.cursor
    decreases |l.image| - l.cursor, if l.failure.None? then 1 else 0
  {
    if l.isDone || l.failure.Some? || l.cursor >= |l.image| then l
    else LoadAll(Consume(l).0)
  }

  function StartLoading(table: Table, image: seq<SnapshotMessage>): Loading
  {
    Loading(false, false, 0, table, image, 0, None)
  }

  /** Polling in chunks, however small, gets no further and no elsewhere than loading in one go. */
  lemma {:induction false} PollIsPartOfLoad(l: Loading, limit: nat, available: nat)
    requires !l.isDone && l.failure.None?
    ensures LoadAll(LoadPoll(l, limit, available).0) == LoadAll(l)
    decreases limit
  {
    if limit != 0 && l.cursor < available && l.cursor < |l.image| {
      var (next, action) := Consume(l);
      if action != THROWN && action != BREAK {
        PollIsPartOfLoad(next, limit - 1, available);
      }
    }
  }

  /** What a table is when sessions are added one after the other. */
  function AddAll(t: Table, sessions: seq<Session>): Table
    decreases |sessions|
  {
    if sessions == [] then t else AddAll(Add(t, sessions[0]), sessions[1..])
  }

  lemma AddLast(t: Table, s: Session)
    requires Agrees(t) && forall i | 0 <= i < |t.sessions| :: t.sessions[i].id < s.id
    ensures Add(t, s).sessions == t.sessions + [s] && Agrees(Add(t, s))
  {
    assert LowerBound(t.sessions, s.id) == |t.sessions|;
    assert s.id in t.byId ==> Listed(t.sessions, t.byId[s.id]);
    AddAgreesIffNew(t, s);
  }

  lemma {:induction false} AddAllAppends(t: Table, sessions: seq<Session>)
    requires Agrees(t) && Ascending(t.sessions + sessions)
    ensures Agrees(AddAll(t, sessions)) && AddAll(t, sessions).sessions == t.sessions + sessions
    decreases |sessions|
  {
    hide Add, Agrees;
    if sessions != [] {
      var s, n := sessions[0], |t.sessions|;
      var all := t.sessions + sessions;
      forall i | 0 <= i < n ensures t.sessions[i].id < s.id {
        assert all[i].id < all[n].id;
      }
      AddLast(t, s);
      assert (t.sessions + [s]) + sessions[1..] == all;
      AddAllAppends(Add(t, s), sessions[1..]);
    } else {
      assert t.sessions + sessions == t.sessions;
    }
  }

  lemma StaysUnsorted(t: Table, s: Session)
    requires !Ascending(t.sessions)
    ensures !Ascending(Add(t, s).sessions)
  {
    var k := LowerBound(t.sessions, s.id);
    var i, j :| 0 <= i < j < |t.sessions| && t.sessions[i].id >= t.sessions[j].id;
    var added := Put(t.sessions, k, s);
    assert added[if i < k then i else i + 1] == t.sessions[i] && added[if j < k then j else j + 1] == t.sessions[j];
  }

  lemma {:induction false} NeverSortedAgain(t: Table, sessions: seq<Session>)
    requires !Ascending(t.sessions)
    ensures !Ascending(AddAll(t, sessions).sessions)
    decreases |sessions|
  {
    if sessions != [] {
      StaysUnsorted(t, sessions[0]);
      NeverSortedAgain(Add(t, sessions[0]), sessions[1..]);
    }
  }

  ghost predicate AllNew(t: Table, sessions: seq<Session>)
  {
    && (forall i | 0 <= i < |sessions| :: sessions[i].id !in t.byId)
    && (forall i, j | 0 <= i < j < |sessions| :: sessions[i].id != sessions[j].id)
  }

  /** The loader does not look for duplicates: the table it leaves is in agreement if and only if
      all the ids it added were new and distinct. */
  lemma {:induction false} AddAllAgreesIffNew(t: Table, sessions: seq<Session>)
    requires Agrees(t)
    ensures Agrees(AddAll(t, sessions)) <==> AllNew(t, sessions)
    decreases |sessions|
  {
    hide Agrees;
    if sessions != [] {
      var s, rest := sessions[0], sessions[1..];
      AddAgreesIffNew(t, s);
      if s.id in t.byId {
        NeverSortedAgain(Add(t, s), rest);
        AgreementIsSorted(AddAll(t, sessions));
      } else {
        AddAllAgreesIffNew(Add(t, s), rest);
        assert sessions == [s] + rest;
      }
    }
  }

  lemma AgreementIsSorted(t: Table)
    ensures Agrees(t) ==> Ascending(t.sessions)
  {
  }

  // ---- What the loader accepts ----

  predicate IsMark(m: SnapshotMessage, mark: Mark)
  {
    m.SnapshotMarker? && m.typeId == SNAPSHOT_TYPE_ID && m.mark == mark
  }

  /** Neither of a foreign schema nor a marker of another snapshot type. */
  predicate IsReadable(m: SnapshotMessage)
  {
    !m.ForeignSchema? && (m.SnapshotMarker? ==> m.typeId == SNAPSHOT_TYPE_ID)
  }

  ghost predicate NoBegin(image: seq<SnapshotMessage>, from: nat, end: nat)
    requires end <= |image|
  {
    forall k | from <= k < end :: !IsMark(image[k], BEGIN)
  }

  /** Up to the first END everything is readable, and there is exactly one BEGIN, or none is missing. */
  ghost predicate EndsAt(image: seq<SnapshotMessage>, inSnapshot: bool, from: nat, end: nat)
  {
    && from <= end < |image| && IsMark(image[end], END)
    && (forall k | from <= k < end :: IsReadable(image[k]) && !IsMark(image[k], END))
    && if inSnapshot then NoBegin(image, from, end) else OneBegin(image, from, end)
  }

  ghost predicate OneBegin(image: seq<SnapshotMessage>, from: nat, end: nat)
    requires end <= |image|
  {
    exists b: nat :: from <= b < end && IsMark(image[b], BEGIN) && NoBegin(image, from, b) && NoBegin(image, b + 1, end)
  }

  function SessionsIn(messages: seq<SnapshotMessage>): seq<Session>
  {
    if messages == [] then []
    else if messages[0].ClientSessionRecord? then [messages[0].session] + SessionsIn(messages[1..])
    else SessionsIn(messages[1..])
  }

  lemma {:induction false} SessionsInAppend(xs: seq<SnapshotMessage>, ys: seq<SnapshotMessage>)
    ensures SessionsIn(xs + ys) == SessionsIn(xs) + SessionsIn(ys)
  {
    if xs == [] {
      assert xs + ys == ys;
    } else {
      assert (xs + ys)[1..] == xs[1..] + ys;
      SessionsInAppend(xs[1..], ys);
    }
  }

  /** The application version of the last BEGIN among the messages. */
  function VersionIn(messages: seq<SnapshotMessage>, before: int): int
  {
    if messages == [] then before
    else if IsMark(messages[0], BEGIN) then VersionIn(messages[1..], messages[0].appVersion)
    else VersionIn(messages[1..], before)
  }

  lemma OneBeginNext(image: seq<SnapshotMessage>, from: nat, end: nat)
    requires from < end <= |image|
    ensures OneBegin(image, from, end) <==>
            if IsMark(image[from], BEGIN) then NoBegin(image, from + 1, end) else OneBegin(image, from + 1, end)
  {
    if IsMark(image[from], BEGIN) {
      assert NoBegin(image, from, from);
      if b: nat :| from <= b < end && IsMark(image[b], BEGIN) && NoBegin(image, from, b) && NoBegin(image, b + 1, end) {
        assert b == from;
      }
    } else {
      var next: nat := from + 1;
      if b: nat :| next <= b < end && IsMark(image[b], BEGIN) && NoBegin(image, next, b) && NoBegin(image, b + 1, end) {
        assert NoBegin(image, from, b);
      }
      if b: nat :| from <= b < end && IsMark(image[b], BEGIN) && NoBegin(image, from, b) && NoBegin(image, b + 1, end) {
        assert from < b && NoBegin(image, next, b);
      }
    }
  }

  lemma EndsAtNext(image: seq<SnapshotMessage>, inSnapshot: bool, from: nat, end: nat)
    requires from < |image|
    ensures EndsAt(image, inSnapshot, from, end) <==>
            if from == end then inSnapshot && IsMark(image[from], END)
            else
              && IsReadable(image[from]) && !IsMark(image[from], END) && (inSnapshot ==> !IsMark(image[from], BEGIN))
              && EndsAt(image, inSnapshot || IsMark(image[from], BEGIN), from + 1, end)
  {
    hide OneBegin;
    if from < end < |image| {
      OneBeginNext(image, from, end);
      assert NoBegin(image, from, end) <==> !IsMark(image[from], BEGIN) && NoBegin(image, from + 1, end);
    } else if from == end {
      NoneHere(image, from);
    }
  }

  lemma NoneHere(image: seq<SnapshotMessage>, from: nat)
    requires from <= |image|
    ensures NoBegin(image, from, from) && !OneBegin(image, from, from)
  {
  }

  /** What loading comes to when it ends at `end`. */
  ghost predicate LoadedTo(l: Loading, r: Loading, end: nat)
  {
    && l.cursor <= end < |l.image| && r.image == l.image && r.cursor == end + 1
    && r.isDone && r.inSnapshot && r.failure.None?
    && r.table == AddAll(l.table, SessionsIn(l.image[l.cursor..end]))
    && r.appVersion == VersionIn(l.image[l.cursor..end], l.appVersion)
  }

  /** Loading is done if and only if the image has, up to its first END, only readable messages and
      exactly one BEGIN; every session recorded before that END, even before BEGIN, is added in order. */
  lemma {:induction false} LoaderAccepts(l: Loading, end: nat)
    requires !l.isDone && l.failure.None?
    ensures EndsAt(l.image, l.inSnapshot, l.cursor, end) ==> LoadedTo(l, LoadAll(l), end)
    ensures LoadAll(l).isDone && LoadAll(l).cursor == end + 1 ==> EndsAt(l.image, l.inSnapshot, l.cursor, end)
    decreases |l.image| - l.cursor
  {
    if l.cursor < |l.image| {
      var (next, action) := Consume(l);
      EndsAtNext(l.image, l.inSnapshot, l.cursor, end);
      assert LoadAll(l) == LoadAll(next);
      if action != CONTINUE {
        assert LoadAll(next) == next;
      } else {
        LoaderAccepts(next, end);
        if l.cursor < end < |l.image| {
          var rest := l.image[l.cursor..end];
          assert rest[1..] == l.image[next.cursor..end] && rest[0] == l.image[l.cursor];
        }
      }
    }
  }

  /** Message `k` is the first that cannot be, and why: a foreign schema, another snapshot type, a second BEGIN,
      or an END without one. */
  ghost predicate BreaksAt(image: seq<SnapshotMessage>, inSnapshot: bool, from: nat, k: nat, failure: Failure)
  {
    && from <= k < |image|
    && (forall j | from <= j < k :: IsReadable(image[j]) && !IsMark(image[j], END))
    && (inSnapshot ==> NoBegin(image, from, k))
    && (NoBegin(image, from, k) || OneBegin(image, from, k))
    && var begun := inSnapshot || !NoBegin(image, from, k);
    match failure
    case UnexpectedSchema => image[k].ForeignSchema?
    case UnexpectedSnapshotType => image[k].SnapshotMarker? && image[k].typeId != SNAPSHOT_TYPE_ID
    case AlreadyInSnapshot => IsMark(image[k], BEGIN) && begun
    case MissingBegin => IsMark(image[k], END) && !begun
    case _ => false
  }

  lemma BreaksAtNext(image: seq<SnapshotMessage>, inSnapshot: bool, from: nat, k: nat, failure: Failure)
    requires from < k < |image|
    ensures BreaksAt(image, inSnapshot, from, k, failure) <==>
            && IsReadable(image[from]) && !IsMark(image[from], END) && !(inSnapshot && IsMark(image[from], BEGIN))
            && BreaksAt(image, inSnapshot || IsMark(image[from], BEGIN), from + 1, k, failure)
  {
    OneBeginNext(image, from, k);
    assert NoBegin(image, from, k) <==> !IsMark(image[from], BEGIN) && NoBegin(image, from + 1, k);
    OneBeginHasOne(image, from + 1, k);
    hide OneBegin;
  }

  lemma OneBeginHasOne(image: seq<SnapshotMessage>, from: nat, end: nat)
    requires from <= end <= |image|
    ensures !(OneBegin(image, from, end) && NoBegin(image, from, end))
  {
  }

  /** The first message: it breaks the loading itself, or is taken in. */
  lemma BreaksAtOnce(l: Loading, k: nat, failure: Failure)
    requires l.cursor < |l.image|
    ensures var action := Consume(l).1;
            && (action == THROWN ==>
                  (BreaksAt(l.image, l.inSnapshot, l.cursor, k, failure) <==>
                   k == l.cursor && Consume(l).0.failure == Some(failure)))
            && (action == BREAK ==> !BreaksAt(l.image, l.inSnapshot, l.cursor, k, failure))
            && (action == CONTINUE ==> !BreaksAt(l.image, l.inSnapshot, l.cursor, l.cursor, failure))
            && (action == CONTINUE && l.cursor < k ==>
                  (BreaksAt(l.image, l.inSnapshot, l.cursor, k, failure) <==>
                   BreaksAt(l.image, Consume(l).0.inSnapshot, l.cursor + 1, k, failure)))
            && action in {THROWN, BREAK, CONTINUE}
  {
    NoneHere(l.image, l.cursor);
    hide OneBegin, Add;
    if l.cursor < k < |l.image| {
      BreaksAtNext(l.image, l.inSnapshot, l.cursor, k, failure);
    }
  }

  lemma LoadsFurther(l: Loading)
    requires !l.isDone && l.failure.None? && l.cursor < |l.image|
    ensures LoadAll(l) == if Consume(l).1 == CONTINUE then LoadAll(Consume(l).0) else Consume(l).0
    ensures Consume(l).1 in {THROWN, BREAK, CONTINUE} && Consume(l).0.image == l.image
    ensures Consume(l).1 != THROWN ==> Consume(l).0.failure.None?
    ensures Consume(l).1 == CONTINUE ==> !Consume(l).0.isDone && Consume(l).0.cursor == l.cursor + 1
  {
    OnlyThree(l);
    hide Consume;
    var next := Consume(l).0;
    assert next.isDone || next.failure.Some? ==> LoadAll(next) == next;
  }

  lemma OnlyThree(l: Loading)
    requires l.cursor < |l.image|
    ensures Consume(l).1 in {THROWN, BREAK, CONTINUE}
  {
    hide Add;
  }

  lemma BreaksNowhere(l: Loading, k: nat, failure: Failure)
    requires k < l.cursor || l.cursor >= |l.image|
    ensures !BreaksAt(l.image, l.inSnapshot, l.cursor, k, failure)
  {
    hide NoBegin, OneBegin;
  }

  lemma NothingToLoad(l: Loading)
    requires l.cursor >= |l.image|
    ensures LoadAll(l) == l
  {
  }

  /** Loading fails at a message if and only if that is the first that cannot be, and with the exception that
      says why. */
  lemma {:induction false} LoaderFailsExactly(l: Loading, k: nat, failure: Failure)
    requires !l.isDone && l.failure.None?
    ensures LoadAll(l).failure == Some(failure) && LoadAll(l).cursor == k <==>
            BreaksAt(l.image, l.inSnapshot, l.cursor, k, failure)
    decreases |l.image| - l.cursor
  {
    hide *;
    if l.cursor >= |l.image| {
      NothingToLoad(l);
      BreaksNowhere(l, k, failure);
    } else {
      BreaksAtOnce(l, k, failure);
      LoadsFurther(l);
      var next := Consume(l).0;
      if Consume(l).1 == CONTINUE {
        LoaderFailsExactly(next, k, failure);
        if k < l.cursor {
          BreaksNowhere(l, k, failure);
          BreaksNowhere(next, k, failure);
        } else if k == l.cursor {
          BreaksNowhere(next, k, failure);
        }
      }
    }
  }

  lemma {:induction false} SessionsInRecords(sessions: seq<Session>, version: int)
    ensures SessionsIn(Records(sessions)) == sessions && VersionIn(Records(sessions), version) == version
  {
    if sessions != [] {
      assert Records(sessions)[1..] == Records(sessions[1..]);
      SessionsInRecords(sessions[1..], version);
    }
  }

  /** What is written ends at its own END, and has the sessions it was written from. */
  lemma WrittenSnapshot(sessions: seq<Session>, logPosition: int, leadershipTermId: int, appVersion: int,
                        tail: seq<SnapshotMessage>)
    ensures var image := SnapshotOf(sessions, logPosition, leadershipTermId, appVersion) + tail;
            var end := |sessions| + 1;
            && EndsAt(image, false, 0, end)
            && SessionsIn(image[0..end]) == sessions && VersionIn(image[0..end], 0) == appVersion
            && image[end + 1..] == tail
  {
    var image := SnapshotOf(sessions, logPosition, leadershipTermId, appVersion) + tail;
    var end := |sessions| + 1;
    assert image[0] == Marker(BEGIN, logPosition, leadershipTermId, appVersion);
    assert forall k | 1 <= k < end :: image[k] == ClientSessionRecord(sessions[k - 1]);
    assert NoBegin(image, 0, 0) && NoBegin(image, 1, end);
    assert image[0..end][1..] == Records(sessions);
    SessionsInRecords(sessions, appVersion);
  }

  /** Loading what was written rebuilds the very table, and leaves the image right after END, so
      that nothing the service wrote behind it has been read. */
  lemma SnapshotRoundTrip(t: Table, logPosition: int, leadershipTermId: int, appVersion: int,
                          tail: seq<SnapshotMessage>)
    requires Agrees(t)
    ensures var image := SnapshotOf(t.sessions, logPosition, leadershipTermId, appVersion) + tail;
            var n := |t.sessions| + 2;
            && LoadAll(StartLoading(NO_SESSIONS, image)) == Loading(true, true, appVersion, t, image, n, None)
            && image[n..] == tail
  {
    hide EndsAt, SessionsIn, VersionIn, AddAll, Agrees, LoadAll;
    WrittenSnapshot(t.sessions, logPosition, leadershipTermId, appVersion, tail);
    LoaderAccepts(StartLoading(NO_SESSIONS, SnapshotOf(t.sessions, logPosition, leadershipTermId, appVersion) + tail),
                  |t.sessions| + 1);
    RebuiltTable(t);
  }

  /** Adding a table's sessions to an empty one gives the table back. */
  lemma RebuiltTable(t: Table)
    requires Agrees(t)
    ensures AddAll(NO_SESSIONS, t.sessions) == t
  {
    assert [] + t.sessions == t.sessions;
    AddAllAppends(NO_SESSIONS, t.sessions);
    VectorDeterminesTable(AddAll(NO_SESSIONS, t.sessions), t);
  }
}
