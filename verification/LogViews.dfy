/** A cluster log as the frames that carry it, and places in it. */
module LogViews {
  import opened Aeron
  import opened ReplicatedState
  import opened Reassembly

  /** The log: the position it starts at, the messages each as its frames, and how they decode. */
  datatype Log = Log(base: int, messages: seq<seq<Frame>>, decode: Bytes -> Event)

  ghost function EntryAt(log: Log, i: nat): Entry
    requires i < |log.messages| && |log.messages[i]| > 0
  {
    var message := MessageOf(log.messages[i]);
    Entry(log.decode(message.payload), message.position)
  }

  /** The stream position before frame `j` of message `m`. */
  function PositionAt(log: Log, m: nat, j: nat): int
    requires m <= |log.messages| && (if m < |log.messages| then j <= |log.messages[m]| else j == 0)
    requires m > 0 ==> |log.messages[m - 1]| > 0
  {
    if j > 0 then log.messages[m][j - 1].position
    else if m > 0 then log.messages[m - 1][|log.messages[m - 1]| - 1].position
    else log.base
  }

  /** Every message is whole, and every frame ends behind the one before. */
  ghost predicate Valid(log: Log)
  {
    && (forall i | 0 <= i < |log.messages| :: IsMessage(log.messages[i]))
    && (forall i, j | 0 <= i < |log.messages| && 0 <= j < |log.messages[i]| ::
          PositionAt(log, i, j) < log.messages[i][j].position)
  }

  lemma MessagesHaveFrames(log: Log)
    requires Valid(log)
    ensures forall i | 0 <= i < |log.messages| :: |log.messages[i]| > 0
  {
    forall i | 0 <= i < |log.messages| ensures |log.messages[i]| > 0 {
      assert IsMessage(log.messages[i]);
    }
  }

  /** Where message `m` starts, which is where the one before it ends. */
  ghost function Boundary(log: Log, m: nat): int
    requires Valid(log) && m <= |log.messages|
  {
    MessagesHaveFrames(log);
    PositionAt(log, m, 0)
  }

  lemma {:induction false} FramesInOrder(log: Log, m: nat, j: nat, k: nat)
    requires Valid(log) && m < |log.messages| && j <= k <= |log.messages[m]|
    ensures PositionAt(log, m, j) <= PositionAt(log, m, k)
    ensures j < k ==> PositionAt(log, m, j) < PositionAt(log, m, k)
    decreases k
  {
    MessagesHaveFrames(log);
    if j < k {
      FramesInOrder(log, m, j, k - 1);
      assert PositionAt(log, m, k - 1) < log.messages[m][k - 1].position;
    }
  }

  lemma FramesAscend(log: Log, m: nat, j: nat)
    requires Valid(log) && m < |log.messages| && j <= |log.messages[m]|
    ensures Boundary(log, m) <= PositionAt(log, m, j)
    ensures j > 0 ==> Boundary(log, m) < PositionAt(log, m, j)
  {
    hide Valid;
    MessagesHaveFrames(log);
    FramesInOrder(log, m, 0, j);
  }

  lemma FramesBelowEnd(log: Log, m: nat, j: nat)
    requires Valid(log) && m < |log.messages| && j < |log.messages[m]|
    ensures PositionAt(log, m, j) < Boundary(log, m + 1)
  {
    hide Valid;
    MessagesHaveFrames(log);
    FramesInOrder(log, m, j, |log.messages[m]|);
  }

  lemma NextBoundary(log: Log, m: nat)
    requires Valid(log) && m < |log.messages|
    ensures Boundary(log, m) < Boundary(log, m + 1)
  {
    MessagesHaveFrames(log);
    FramesAscend(log, m, |log.messages[m]|);
  }

  lemma {:induction false} BoundariesAscend(log: Log, m: nat, n: nat)
    requires Valid(log) && m < n <= |log.messages|
    ensures Boundary(log, m) < Boundary(log, n)
    decreases n
  {
    hide Valid, Boundary;
    NextBoundary(log, n - 1);
    if m < n - 1 {
      BoundariesAscend(log, m, n - 1);
    }
  }

  /** The messages that end at or below a position, counted from the start of the log. */
  ghost predicate EndsBelow(log: Log, n: nat, position: int)
    requires Valid(log) && n <= |log.messages|
  {
    Boundary(log, n) <= position && (n < |log.messages| ==> position < Boundary(log, n + 1))
  }

  ghost function MessageEntry(log: Log, m: nat): Entry
    requires Valid(log) && m < |log.messages|
  {
    MessagesHaveFrames(log);
    EntryAt(log, m)
  }

  ghost function Entries(log: Log, from: nat, end: nat): (r: seq<Entry>)
    requires Valid(log) && from <= end <= |log.messages|
    ensures |r| == end - from
    decreases end
  {
    if from == end then [] else Entries(log, from, end - 1) + [MessageEntry(log, end - 1)]
  }

  lemma {:induction false} EntriesSplit(log: Log, a: nat, b: nat, c: nat)
    requires Valid(log) && a <= b <= c <= |log.messages|
    ensures Entries(log, a, c) == Entries(log, a, b) + Entries(log, b, c)
    decreases c
  {
    hide Valid, MessageEntry;
    if b < c {
      EntriesSplit(log, a, b, c - 1);
    }
  }

  lemma EntryEnds(log: Log, m: nat)
    requires Valid(log) && m < |log.messages|
    ensures MessageEntry(log, m).position == Boundary(log, m + 1)
  {
    MessagesHaveFrames(log);
  }

  // ---- Frames from a place on ----

  /** A place between frames: `frame` frames of message `message` have been read. */
  datatype Place = Place(message: nat, frame: nat)

  ghost predicate InLog(log: Log, p: Place)
  {
    p.message <= |log.messages| &&
    if p.message < |log.messages| then p.frame < |log.messages[p.message]| else p.frame == 0
  }

  ghost function FramesFrom(log: Log, p: Place): seq<Frame>
    requires Valid(log) && InLog(log, p)
    decreases |log.messages| - p.message
  {
    if p.message == |log.messages| then []
    else
      MessagesHaveFrames(log);
      log.messages[p.message][p.frame..] + FramesFrom(log, Place(p.message + 1, 0))
  }

  /** The place behind one more frame. */
  ghost function NextPlace(log: Log, p: Place): Place
    requires InLog(log, p) && p.message < |log.messages|
  {
    if p.frame + 1 < |log.messages[p.message]| then Place(p.message, p.frame + 1) else Place(p.message + 1, 0)
  }

  lemma NextPlaceInLog(log: Log, p: Place)
    requires Valid(log) && InLog(log, p) && p.message < |log.messages|
    ensures InLog(log, NextPlace(log, p))
  {
    MessagesHaveFrames(log);
  }

  lemma NextFrame(log: Log, p: Place)
    requires Valid(log) && InLog(log, p) && p.message < |log.messages|
    ensures InLog(log, NextPlace(log, p))
    ensures FramesFrom(log, p) == [log.messages[p.message][p.frame]] + FramesFrom(log, NextPlace(log, p))
  {
    hide Valid;
    var frames, next := log.messages[p.message], NextPlace(log, p);
    NextPlaceInLog(log, p);
    FramesOfMessage(log, p);
    var rest := FramesFrom(log, Place(p.message + 1, 0));
    assert (if p.frame + 1 < |frames| then frames[p.frame + 1..] + rest else rest) == FramesFrom(log, next) by {
      if p.frame + 1 < |frames| {
        FramesOfMessage(log, next);
      }
    }
    hide FramesFrom, InLog, NextPlace;
    SplitFirst(frames, p.frame, rest);
    assert p.frame + 1 == |frames| ==> frames[p.frame + 1..] + rest == rest;
  }

  lemma FramesOfMessage(log: Log, p: Place)
    requires Valid(log) && InLog(log, p) && p.message < |log.messages|
    ensures InLog(log, Place(p.message + 1, 0))
    ensures FramesFrom(log, p) == log.messages[p.message][p.frame..] + FramesFrom(log, Place(p.message + 1, 0))
  {
    hide Valid;
    MessagesHaveFrames(log);
  }

  lemma SplitFirst(frames: seq<Frame>, j: nat, rest: seq<Frame>)
    requires j < |frames|
    ensures frames[j..] + rest == [frames[j]] + (frames[j + 1..] + rest)
  {
  }

  // ---- Positions of places ----

  ghost function PlaceAt(log: Log, p: Place): int
    requires Valid(log) && InLog(log, p)
  {
    MessagesHaveFrames(log);
    PositionAt(log, p.message, p.frame)
  }

  predicate Before(p: Place, q: Place)
  {
    p.message < q.message || (p.message == q.message && p.frame < q.frame)
  }

  lemma PlaceStarts(log: Log, m: nat)
    requires Valid(log) && m <= |log.messages|
    ensures InLog(log, Place(m, 0)) && PlaceAt(log, Place(m, 0)) == Boundary(log, m)
  {
    MessagesHaveFrames(log);
  }

  lemma PlacesAscend(log: Log, p: Place, q: Place)
    requires Valid(log) && InLog(log, p) && InLog(log, q) && Before(p, q)
    ensures PlaceAt(log, p) < PlaceAt(log, q)
  {
    hide Valid;
    MessagesHaveFrames(log);
    if p.message == q.message {
      FramesInOrder(log, p.message, p.frame, q.frame);
    } else {
      FramesBelowEnd(log, p.message, p.frame);
      if p.message + 1 < q.message {
        BoundariesAscend(log, p.message + 1, q.message);
      }
      if q.frame > 0 {
        FramesAscend(log, q.message, q.frame);
      }
    }
  }

  /** No two places have one position. */
  lemma SamePlace(log: Log, p: Place, q: Place)
    requires Valid(log) && InLog(log, p) && InLog(log, q) && PlaceAt(log, p) == PlaceAt(log, q)
    ensures p == q
  {
    hide Valid, PlaceAt;
    if Before(p, q) {
      PlacesAscend(log, p, q);
    } else if Before(q, p) {
      PlacesAscend(log, q, p);
    }
  }

  // ---- Views ----

  /** A view of the log: an unread image joined at a message boundary or, where `inside` allows it,
      between the frames of a message, with the log's frames from there. */
  ghost predicate IsView(log: Log, image: Image, inside: bool)
    requires Valid(log)
  {
    image.consumed == 0 && exists p :: ViewFrom(log, image, p) && (p.frame > 0 ==> inside)
  }

  ghost predicate ViewFrom(log: Log, image: Image, p: Place)
    requires Valid(log)
  {
    InLog(log, p) && image.joinPosition == PlaceAt(log, p) && image.frames == FramesFrom(log, p)
  }

  // ---- What the messages say of their own position ----

  /** A message that carries its own log position carries the one the log has reached with it. */
  predicate Honest(e: Entry) { Stamp(e).Some? ==> Stamp(e).value == e.position }

  ghost predicate AllHonest(log: Log)
    requires Valid(log)
  {
    forall i | 0 <= i < |log.messages| :: Honest(MessageEntry(log, i))
  }

  /** The messages between two boundaries, either way round, are dispatched to no handler. */
  ghost predicate Silent(log: Log, a: nat, b: nat)
    requires Valid(log) && a <= |log.messages| && b <= |log.messages|
  {
    forall i | a <= i < b || b <= i < a :: MessageEntry(log, i).event.OtherTemplate?
  }

  /** The event takes the log position to a message boundary that is not its own end, nor separated from
      it by undispatched messages only. */
  ghost predicate Misleads(log: Log, i: nat)
    requires Valid(log) && i < |log.messages|
  {
    exists b: nat :: MisleadsTo(log, i, b)
  }

  ghost predicate MisleadsTo(log: Log, i: nat, b: nat)
    requires Valid(log) && i < |log.messages|
  {
    b <= |log.messages| && Stamp(MessageEntry(log, i)) == Some(Boundary(log, b)) && !Silent(log, b, i + 1)
  }

  /** The position the event carries lies in the message that starts where `n` messages end, with only
      undispatched ones between there and the event's own end. */
  ghost predicate TellsTo(log: Log, i: nat, n: nat)
    requires Valid(log) && i < |log.messages|
  {
    && n <= |log.messages| && Stamp(MessageEntry(log, i)).Some?
    && EndsBelow(log, n, Stamp(MessageEntry(log, i)).value) && Silent(log, n, i + 1)
  }

  ghost predicate Tells(log: Log, i: nat)
    requires Valid(log) && i < |log.messages|
  {
    Stamp(MessageEntry(log, i)).Some? ==> exists n: nat :: TellsTo(log, i, n)
  }

  lemma EndsBelowOnce(log: Log, n: nat, m: nat, position: int)
    requires Valid(log) && n <= |log.messages| && m <= |log.messages|
    requires EndsBelow(log, n, position) && EndsBelow(log, m, position)
    ensures n == m
  {
    hide Valid, Boundary;
    if n + 1 < m {
      BoundariesAscend(log, n + 1, m);
    } else if m + 1 < n {
      BoundariesAscend(log, m + 1, n);
    }
  }

  lemma BoundaryEndsBelow(log: Log, b: nat)
    requires Valid(log) && b <= |log.messages|
    ensures EndsBelow(log, b, Boundary(log, b))
  {
    hide Valid, Boundary;
    if b < |log.messages| {
      NextBoundary(log, b);
    }
  }

  lemma TellingNeverMisleads(log: Log, i: nat)
    requires Valid(log) && i < |log.messages| && Tells(log, i)
    ensures !Misleads(log, i)
  {
    hide Valid, MessageEntry, Boundary, EndsBelow;
    if b: nat :| MisleadsTo(log, i, b) {
      var n: nat :| TellsTo(log, i, n);
      BoundaryEndsBelow(log, b);
      EndsBelowOnce(log, n, b, Boundary(log, b));
    }
  }

  lemma HonestTells(log: Log, i: nat)
    requires Valid(log) && i < |log.messages| && Honest(MessageEntry(log, i))
    ensures Tells(log, i)
  {
    hide Valid, MessageEntry, Boundary, EndsBelow;
    if Stamp(MessageEntry(log, i)).Some? {
      EntryEnds(log, i);
      BoundaryEndsBelow(log, i + 1);
      assert TellsTo(log, i, i + 1);
    }
  }

  lemma SilentFurther(log: Log, a: nat, b: nat, c: nat)
    requires Valid(log) && a <= |log.messages| && b <= |log.messages| && c <= |log.messages|
    requires Silent(log, a, b) && Silent(log, b, c)
    ensures Silent(log, a, c)
  {
    hide Valid, MessageEntry;
  }
}
