/** Logs made by fragmenting messages: they are what contiguity asks of a log. */
module FragmentedLogs {
  import opened Aeron
  import opened SessionTable
  import opened ReplicatedState
  import opened Reassembly
  import opened ReassemblyProofs
  import opened AgentSpec
  import opened LogViews
  import opened Tracking
  import opened Contiguity

  /** Payloads fragmented one after the other into a term that starts at `base`, from a payload offset on;
      the first frame's header stands right before that offset. */
  function FragmentedLog(payloads: seq<Bytes>, max: nat, offset: nat, base: int, decode: Bytes -> Event): Log
    requires max > 0
  {
    Log(base + offset - HEADER_LENGTH, TermLayout(payloads, max, offset, base), decode)
  }

  lemma NextOffsetIsAligned(f: Frame)
    ensures f.NextOffset() == Align(f.offset + |f.payload|) + HEADER_LENGTH
  {
  }

  /** Every frame ends behind the one before, and the next may start where the last one ends. */
  ghost predicate Rises(frames: seq<Frame>, offset: nat, base: int)
  {
    && |frames| > 0
    && base + offset - HEADER_LENGTH < frames[0].position
    && (forall k | 1 <= k < |frames| :: frames[k - 1].position < frames[k].position)
    && frames[|frames| - 1].position == base + frames[|frames| - 1].NextOffset() - HEADER_LENGTH
  }

  lemma RisesCons(f: Frame, rest: seq<Frame>, offset: nat, base: int)
    requires Rises(rest, f.NextOffset(), base) && base + offset - HEADER_LENGTH < f.position
    requires f.position == base + f.NextOffset() - HEADER_LENGTH
    ensures Rises([f] + rest, offset, base)
  {
    var all := [f] + rest;
    forall k | 1 <= k < |all| ensures all[k - 1].position < all[k].position {
      assert all[k] == rest[k - 1] && (k > 1 ==> all[k - 1] == rest[k - 2]);
    }
    assert all[|all| - 1] == rest[|rest| - 1];
  }

  lemma {:induction false} LayoutRises(chunks: seq<Bytes>, first: bool, offset: nat, base: int)
    requires |chunks| >= 1
    ensures Rises(Layout(chunks, first, offset, base), offset, base)
  {
    hide Align;
    var r := Layout(chunks, first, offset, base);
    NextOffsetIsAligned(r[0]);
    if |chunks| > 1 {
      LayoutRises(chunks[1..], false, r[0].NextOffset(), base);
      RisesCons(r[0], Layout(chunks[1..], false, r[0].NextOffset(), base), offset, base);
    }
  }

  /** All frames of a log end behind the frame before. */
  ghost predicate Ascends(log: Log)
  {
    && (forall i | 0 <= i < |log.messages| :: |log.messages[i]| > 0)
    && forall i, j | 0 <= i < |log.messages| && 0 <= j < |log.messages[i]| ::
         PositionAt(log, i, j) < log.messages[i][j].position
  }

  lemma AscendsCons(frames: seq<Frame>, rest: Log, offset: nat, base: int)
    requires Rises(frames, offset, base) && Ascends(rest) && rest.base == frames[|frames| - 1].position
    ensures Ascends(Log(base + offset - HEADER_LENGTH, [frames] + rest.messages, rest.decode))
  {
    var log := Log(base + offset - HEADER_LENGTH, [frames] + rest.messages, rest.decode);
    forall i, j | 0 <= i < |log.messages| && 0 <= j < |log.messages[i]|
      ensures PositionAt(log, i, j) < log.messages[i][j].position
    {
      if i > 0 {
        assert log.messages[i] == rest.messages[i - 1];
        assert i > 1 ==> log.messages[i - 1] == rest.messages[i - 2];
        assert PositionAt(log, i, j) == PositionAt(rest, i - 1, j);
      }
    }
  }

  lemma {:induction false} FragmentedAscends(payloads: seq<Bytes>, max: nat, offset: nat, base: int,
                                             decode: Bytes -> Event)
    requires max > 0
    ensures Ascends(FragmentedLog(payloads, max, offset, base, decode))
    decreases |payloads|
  {
    if |payloads| > 0 {
      var frames := Layout(Chunks(payloads[0], max), true, offset, base);
      var next := frames[|frames| - 1].NextOffset();
      LayoutRises(Chunks(payloads[0], max), true, offset, base);
      FragmentedAscends(payloads[1..], max, next, base, decode);
      AscendsCons(frames, FragmentedLog(payloads[1..], max, next, base, decode), offset, base);
    }
  }

  /** The message's event with the position the log reaches with it. */
  ghost function FragmentedEntry(log: Log, payload: Bytes, i: nat): Entry
    requires i < |log.messages| && |log.messages[i]| > 0
  {
    Entry(log.decode(payload), log.messages[i][|log.messages[i]| - 1].position)
  }

  /** Any fragmented log is whole messages in ascending frames, and replaying it is replaying the payloads;
      it is honest if and only if the messages that carry their own log position carry the one the log has
      reached with them. */
  lemma FragmentedLogIsValid(payloads: seq<Bytes>, max: nat, offset: nat, base: int, decode: Bytes -> Event)
    requires max > 0
    ensures var log := FragmentedLog(payloads, max, offset, base, decode);
            && Ascends(log) && |log.messages| == |payloads| && Valid(log)
            && (forall i | 0 <= i < |payloads| :: MessageEntry(log, i) == FragmentedEntry(log, payloads[i], i))
            && (AllHonest(log) <==> forall i | 0 <= i < |payloads| :: Honest(FragmentedEntry(log, payloads[i], i)))
  {
    hide IsMessage, Honest;
    var log := FragmentedLog(payloads, max, offset, base, decode);
    FragmentedAscends(payloads, max, offset, base, decode);
    TermOffsets(payloads, max, offset, base);
    assert forall i | 0 <= i < |payloads| ::
        IsMessage(log.messages[i]) && EntryAt(log, i) == FragmentedEntry(log, payloads[i], i);
  }

  /** The first `n` messages with the positions the log reaches with them. */
  ghost function PayloadEntries(log: Log, payloads: seq<Bytes>, n: nat): seq<Entry>
    requires Ascends(log) && n <= |payloads| == |log.messages|
  {
    seq(n, i requires 0 <= i < n => FragmentedEntry(log, payloads[i], i))
  }

  lemma {:induction false} EntriesArePayloads(log: Log, payloads: seq<Bytes>, n: nat)
    requires Valid(log) && Ascends(log) && n <= |payloads| == |log.messages|
    requires forall i | 0 <= i < n :: MessageEntry(log, i) == FragmentedEntry(log, payloads[i], i)
    ensures Entries(log, 0, n) == PayloadEntries(log, payloads, n)
  {
    hide Valid, MessageEntry, FragmentedEntry, Ascends;
    if n > 0 {
      EntriesArePayloads(log, payloads, n - 1);
    }
  }

  /** The agent's state and callbacks are those of folding the handlers over the first `n` messages. */
  ghost predicate Folded(t: AgentState, core: Core, log: Log, payloads: seq<Bytes>, n: nat)
    requires Ascends(log) && n <= |payloads| == |log.messages|
  {
    var o := Replay(core, PayloadEntries(log, payloads, n));
    && o.failure.None? && t.core.table == o.core.table && t.core.clusterTime == o.core.clusterTime
    && t.core.leadershipTermId == o.core.leadershipTermId && LogCallbacks(t.journal) == o.callbacks
  }

  /** Folded over the messages that end at or below the log position. */
  ghost predicate FoldedToPosition(t: AgentState, core: Core, log: Log, payloads: seq<Bytes>)
    requires Valid(log) && Ascends(log) && |payloads| == |log.messages|
  {
    exists n :: 0 <= n <= |payloads| && EndsBelow(log, n, t.core.logPosition) && Folded(t, core, log, payloads, n)
  }

  /** Folded over the messages whose last frame has been read; over all of them once every frame has. */
  ghost predicate FoldedAsRead(t: AgentState, core: Core, log: Log, payloads: seq<Bytes>)
    requires Valid(log) && Ascends(log) && |payloads| == |log.messages|
  {
    t.image.Some? ==>
      && (exists n :: 0 <= n <= |payloads| && WhollyRead(log, t.image.value, n) && Folded(t, core, log, payloads, n))
      && (t.image.value.consumed == |t.image.value.frames| ==> Folded(t, core, log, payloads, |payloads|))
  }

  /** A run from the start of a log. */
  ghost function Whole(log: Log, s: AgentState, inside: bool): Origin
  {
    Origin(log, 0, s.core, [], None, inside, true)
  }

  /** What has been applied of the log has been folded over the payloads. */
  lemma AppliedIsFold(t: AgentState, s: AgentState, log: Log, payloads: seq<Bytes>, inside: bool, n: nat)
    requires Valid(log) && Ascends(log) && n <= |payloads| == |log.messages|
    requires forall i | 0 <= i < |payloads| :: MessageEntry(log, i) == FragmentedEntry(log, payloads[i], i)
    requires OriginValid(Whole(log, s, inside)) && HasApplied(t, Whole(log, s, inside), n)
    ensures Folded(t, s.core, log, payloads, n)
  {
    hide Valid, OriginValid, Ascends, MessageEntry, FragmentedEntry, Replay, BoundOnFrames;
    EntriesArePayloads(log, payloads, n);
    assert forall callbacks: seq<Callback> :: [] + callbacks == callbacks;
  }

  lemma PositionIsFold(t: AgentState, s: AgentState, log: Log, payloads: seq<Bytes>, inside: bool, n: nat)
    requires Valid(log) && Ascends(log) && |payloads| == |log.messages|
    requires forall i | 0 <= i < |payloads| :: MessageEntry(log, i) == FragmentedEntry(log, payloads[i], i)
    requires OriginValid(Whole(log, s, inside)) && AppliedToPosition(t, Whole(log, s, inside), n)
    ensures FoldedToPosition(t, s.core, log, payloads)
  {
    hide Valid, OriginValid, Ascends, MessageEntry, FragmentedEntry, HasApplied, Folded, EndsBelow, BoundOnFrames;
    AppliedIsFold(t, s, log, payloads, inside, n);
  }

  lemma ReadIsFold(t: AgentState, s: AgentState, log: Log, payloads: seq<Bytes>, inside: bool)
    requires Valid(log) && Ascends(log) && |payloads| == |log.messages|
    requires forall i | 0 <= i < |payloads| :: MessageEntry(log, i) == FragmentedEntry(log, payloads[i], i)
    requires OriginValid(Whole(log, s, inside)) && AppliedAsRead(t, Whole(log, s, inside))
    ensures FoldedAsRead(t, s.core, log, payloads)
  {
    hide Valid, OriginValid, Ascends, MessageEntry, FragmentedEntry, HasApplied, Folded, WhollyRead, BoundOnFrames;
    if t.image.Some? {
      var x := Whole(log, s, inside);
      var n :| 0 <= n <= |log.messages| && WhollyRead(log, t.image.value, n) && HasApplied(t, x, n);
      AppliedIsFold(t, s, log, payloads, inside, n);
      if t.image.value.consumed == |t.image.value.frames| {
        AppliedIsFold(t, s, log, payloads, inside, |payloads|);
      }
    }
  }

  /** Fragment any messages into one term and drive a new agent with the frames, whatever order joins,
      polls of any size, aborts, snapshots and closed images come in, and provided that no message
      misleads: its state and callbacks are, while it reads, those of folding the handlers over exactly
      the messages whose last frame it has read; with every frame read, over the whole message list; and
      if the messages tell, at all times over those that end at or below its log position. */
  lemma FragmentedRun(s: AgentState, payloads: seq<Bytes>, max: nat, offset: nat, base: int,
                                         inside: bool, inputs: seq<Input>)
    requires max > 0 && s.failure.None? && s.image.None? && s.activeLog.None? && LogCallbacks(s.journal) == []
    requires var log := FragmentedLog(payloads, max, offset, base, s.config.decode);
             && s.core.logPosition == log.base && OriginValid(Whole(log, s, inside))
             && Trusted(Whole(log, s, inside)) && Fits(s, inputs, Whole(log, s, inside))
    ensures var log := FragmentedLog(payloads, max, offset, base, s.config.decode);
            var t := Run(s, inputs);
            && Valid(log) && Ascends(log) && |log.messages| == |payloads|
            && (t.failure.None? ==>
                  && FoldedAsRead(t, s.core, log, payloads)
                  && (Reliable(Whole(log, s, inside)) ==> FoldedToPosition(t, s.core, log, payloads)))
  {
    hide Honest, Run, Fits, FoldedToPosition, FoldedAsRead, AppliedToPosition, AppliedAsRead, Ascends,
         OriginValid, Valid, Reliable, Trusted, TermLayout;
    hide FragmentedEntry, MessageEntry;
    var log := FragmentedLog(payloads, max, offset, base, s.config.decode);
    FragmentedLogIsValid(payloads, max, offset, base, s.config.decode);
    var x := Whole(log, s, inside);
    ContiguousRun(s, x, inputs);
    var t := Run(s, inputs);
    if t.failure.None? {
      ReadIsFold(t, s, log, payloads, inside);
      if Reliable(x) {
        var n :| AppliedToPosition(t, x, n);
        PositionIsFold(t, s, log, payloads, inside, n);
      }
    }
  }
}
