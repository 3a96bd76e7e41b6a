/** What the reassembler delivers: for arbitrary frames, exactly the complete chains; and for a
    log that loses frames, exactly the messages that lost none, unless offsets collide. */
module ReassemblyProofs {
  import opened Aeron
  import opened Reassembly

  // ---- Arbitrary frames ----

  /** The frames that are part of a larger message; unfragmented frames do not touch the builder. */
  function Fragments(frames: seq<Frame>): seq<Frame>
  {
    if frames == [] then []
    else
      var init := Fragments(frames[..|frames| - 1]);
      var last := frames[|frames| - 1];
      if last.IsWhole() then init else init + [last]
  }

  /** What the builder holds after frames `F` of larger messages: their open suffix, if there is one. */
  ghost predicate Holds(b: Builder, F: seq<Frame>)
  {
    || (exists i :: 0 <= i < |F| && OpenChain(F[i..]) && b == Holding(F[i..]))
    || (b == EMPTY && forall i | 0 <= i < |F| :: !OpenChain(F[i..]))
  }

  lemma JoinedSnoc(part: seq<Frame>, f: Frame)
    ensures Joined(part + [f]) == Joined(part) + f.payload
  {
    assert (part + [f])[..|part|] == part;
  }

  lemma OpenChainSnoc(part: seq<Frame>, f: Frame)
    requires OpenChain(part) && !f.IsWhole() && !f.Begins() && !f.Ends()
    requires f.offset == part[|part| - 1].NextOffset()
    ensures OpenChain(part + [f])
  {
    var whole := part + [f];
    forall k | 1 <= k < |whole|
      ensures !whole[k].Begins() && whole[k].offset == whole[k - 1].NextOffset()
    {
      if k < |part| {
        assert whole[k] == part[k] && whole[k - 1] == part[k - 1];
      }
    }
  }

  /** An open suffix that ends in a frame without BEGIN continues the open suffix before it. */
  lemma OpenSuffixContinues(F: seq<Frame>, f: Frame, i: nat)
    requires i <= |F| && OpenChain((F + [f])[i..]) && !f.Begins()
    ensures i < |F| && OpenChain(F[i..]) && f.offset == F[|F| - 1].NextOffset() && !f.Ends()
  {
    var part := (F + [f])[i..];
    assert part[0] == (F + [f])[i];
    if i < |F| {
      assert part == F[i..] + [f];
      assert F[i..] == part[..|part| - 1];
      var last := |part| - 1;
      assert part[last] == f && part[last - 1] == F[|F| - 1];
      assert OpenChain(F[i..]) by {
        forall k | 1 <= k < |F[i..]|
          ensures !F[i..][k].Begins() && F[i..][k].offset == F[i..][k - 1].NextOffset()
        {
          assert F[i..][k] == part[k] && F[i..][k - 1] == part[k - 1];
        }
        forall k | 0 <= k < |F[i..]| ensures !F[i..][k].IsWhole() && !F[i..][k].Ends() {
          assert F[i..][k] == part[k];
        }
        assert F[i..][0] == part[0];
      }
    }
  }

  lemma BeginAlone(f: Frame)
    requires !f.IsWhole() && f.Begins()
    ensures OpenChain([f]) && Holding([f]) == Builder(f.payload, f.NextOffset())
  {
    WholeIsBeginAndEnd(f);
    JoinedSnoc([], f);
    assert [] + [f] == [f] && Joined([]) + f.payload == f.payload;
  }

  lemma HoldsAfterBegin(b: Builder, F: seq<Frame>, f: Frame)
    requires !f.IsWhole() && f.Begins()
    ensures Holds(After(b, f, CONTINUE), F + [f])
  {
    hide OpenChain, Holding;
    BeginAlone(f);
    assert (F + [f])[|F|..] == [f];
  }

  lemma HoldsAfterMiddle(b: Builder, F: seq<Frame>, f: Frame, i: nat)
    requires !f.IsWhole() && !f.Begins() && !f.Ends() && f.offset == b.nextOffset
    requires i < |F| && OpenChain(F[i..]) && b == Holding(F[i..])
    ensures Holds(After(b, f, CONTINUE), F + [f])
  {
    var suffix := (F + [f])[i..];
    assert suffix == F[i..] + [f];
    OpenChainSnoc(F[i..], f);
    JoinedSnoc(F[i..], f);
    assert After(b, f, CONTINUE) == Holding(suffix);
  }

  lemma HoldsStep(b: Builder, F: seq<Frame>, f: Frame)
    requires Holds(b, F) && !f.IsWhole()
    ensures Holds(After(b, f, CONTINUE), F + [f])
  {
    if f.Begins() {
      HoldsAfterBegin(b, F, f);
    } else if f.offset == b.nextOffset && !f.Ends() {
      assert b != EMPTY;
      var i :| 0 <= i < |F| && OpenChain(F[i..]) && b == Holding(F[i..]);
      HoldsAfterMiddle(b, F, f, i);
    } else {
      forall i | 0 <= i < |F + [f]| ensures !OpenChain((F + [f])[i..]) {
        if OpenChain((F + [f])[i..]) {
          OpenSuffixContinues(F, f, i);
        }
      }
    }
  }

  lemma {:induction false} BuilderHoldsOpenSuffix(frames: seq<Frame>)
    ensures Holds(Feed(EMPTY, frames), Fragments(frames))
  {
    if frames != [] {
      var init, last := frames[..|frames| - 1], frames[|frames| - 1];
      BuilderHoldsOpenSuffix(init);
      assert frames == init + [last];
      FeedAppends(EMPTY, init, [last]);
      assert Feed(Feed(EMPTY, init), [last]) == After(Feed(EMPTY, init), last, CONTINUE);
      if !last.IsWhole() {
        HoldsStep(Feed(EMPTY, init), Fragments(init), last);
      }
    }
  }

  /** For any frames with any flags and offsets: the next frame delivers a payload if and only if
      it is unfragmented and carries it, or it ends a complete chain among the fragments so far,
      whose payloads joined are what is delivered. Nothing is ever mixed, and nothing is missed. */
  lemma DeliversExactlyChains(frames: seq<Frame>, f: Frame, payload: Bytes)
    ensures Offered(Feed(EMPTY, frames), f) == Some(Delivery(payload, f.position)) <==>
            if f.IsWhole() then payload == f.payload else CompletesChain(Fragments(frames), f, payload)
  {
    BuilderHoldsOpenSuffix(frames);
    if !f.IsWhole() {
      HolderDelivers(Feed(EMPTY, frames), Fragments(frames), f, payload);
    }
  }

  /** Frame `f` ends a complete chain that begins somewhere in `F`, and `payload` is its payloads joined. */
  ghost predicate CompletesChain(F: seq<Frame>, f: Frame, payload: Bytes)
  {
    exists i :: 0 <= i <= |F| && CompleteChain(F[i..] + [f]) && payload == Joined(F[i..] + [f])
  }

  lemma HolderDelivers(b: Builder, F: seq<Frame>, f: Frame, payload: Bytes)
    requires Holds(b, F) && !f.IsWhole()
    ensures Offered(b, f) == Some(Delivery(payload, f.position)) <==> CompletesChain(F, f, payload)
  {
    if CompletesChain(F, f, payload) {
      var i :| 0 <= i <= |F| && CompleteChain(F[i..] + [f]) && payload == Joined(F[i..] + [f]);
      ChainEnds(F[i..], f);
      JoinedSnoc(F[i..], f);
      HeldFrom(b, F, i);
    } else if Offered(b, f) == Some(Delivery(payload, f.position)) {
      assert b != EMPTY;
      var i :| 0 <= i < |F| && OpenChain(F[i..]) && b == Holding(F[i..]);
      JoinedSnoc(F[i..], f);
      ChainEnds(F[i..], f);
      assert false;
    }
  }

  lemma HeldFrom(b: Builder, F: seq<Frame>, i: nat)
    requires Holds(b, F) && i < |F| && OpenChain(F[i..])
    ensures b == Holding(F[i..])
  {
    var j :| 0 <= j < |F| && OpenChain(F[j..]) && b == Holding(F[j..]);
    OneOpenSuffix(F);
  }

  lemma ChainEnds(part: seq<Frame>, f: Frame)
    ensures CompleteChain(part + [f]) <==>
            OpenChain(part) && !f.Begins() && f.Ends() && f.offset == part[|part| - 1].NextOffset()
  {
    assert (part + [f])[..|part|] == part;
  }

  lemma OneOpenSuffix(F: seq<Frame>)
    ensures forall i, j | 0 <= i < j < |F| && OpenChain(F[i..]) :: !OpenChain(F[j..])
  {
    forall i, j | 0 <= i < j < |F| && OpenChain(F[i..]) ensures !OpenChain(F[j..]) {
      assert F[i..][j - i] == F[j..][0];
    }
  }

  // ---- A log that loses frames ----

  /** The frames of one message that survive, `kept[k]` saying whether frame `k` does. */
  function Survivors(frames: seq<Frame>, kept: seq<bool>): seq<Frame>
    requires |kept| == |frames|
  {
    if frames == [] then []
    else
      var rest := Survivors(frames[1..], kept[1..]);
      if kept[0] then [frames[0]] + rest else rest
  }

  function LossyFrames(messages: seq<seq<Frame>>, kept: seq<seq<bool>>): seq<Frame>
    requires |kept| == |messages| && forall i | 0 <= i < |kept| :: |kept[i]| == |messages[i]|
  {
    if |messages| == 0 then []
    else Survivors(messages[0], kept[0]) + LossyFrames(messages[1..], kept[1..])
  }

  predicate Intact(kept: seq<bool>) { false !in kept }

  /** The messages all of whose frames survive. */
  ghost function IntactMessages(messages: seq<seq<Frame>>, kept: seq<seq<bool>>): seq<Delivery>
    requires |kept| == |messages| && forall i | 0 <= i < |messages| :: IsMessage(messages[i])
  {
    if |messages| == 0 then []
    else
      assert IsMessage(messages[0]);
      var rest := IntactMessages(messages[1..], kept[1..]);
      if Intact(kept[0]) then [MessageOf(messages[0])] + rest else rest
  }

  /** The offsets at which a message continues after its first frame. */
  ghost function Continuations(frames: seq<Frame>): set<int>
  {
    set k | 1 <= k < |frames| :: frames[k].offset
  }

  /** No two messages continue at the same offset. */
  ghost predicate OffsetsApart(messages: seq<seq<Frame>>)
  {
    forall i, j | 0 <= i < j < |messages| :: Continuations(messages[i]) !! Continuations(messages[j])
  }

  lemma {:induction false} OffsetsGrow(frames: seq<Frame>, i: nat, k: nat)
    requires IsMessage(frames) && 1 <= i < k < |frames|
    ensures frames[i].offset < frames[k].offset
  {
    LinksOfMessage(frames, k);
    if i < k - 1 {
      OffsetsGrow(frames, i, k - 1);
    }
  }

  lemma LinksOfMessage(frames: seq<Frame>, k: nat)
    requires CompleteChain(frames) && 1 <= k < |frames|
    ensures !frames[k].Begins() && frames[k].offset == frames[k - 1].NextOffset()
    ensures frames[k].Ends() <==> k == |frames| - 1
    ensures !frames[k].IsWhole()
  {
    var init := frames[..|frames| - 1];
    WholeIsBeginAndEnd(frames[k]);
    if k < |frames| - 1 {
      assert frames[k] == init[k] && frames[k - 1] == init[k - 1];
    }
  }

  lemma SurvivorsFrom(frames: seq<Frame>, kept: seq<bool>, k: nat)
    requires |kept| == |frames| && k < |frames|
    ensures var rest := Survivors(frames[k + 1..], kept[k + 1..]);
            Survivors(frames[k..], kept[k..]) == if kept[k] then [frames[k]] + rest else rest
    ensures Intact(kept[k..]) <==> kept[k] && Intact(kept[k + 1..])
  {
    assert frames[k..][0] == frames[k] && frames[k..][1..] == frames[k + 1..];
    assert kept[k..] == [kept[k]] + kept[k + 1..];
  }

  lemma HeldMiddle(frames: seq<Frame>, k: nat)
    requires CompleteChain(frames) && 1 <= k < |frames|
    ensures var b := Holding(frames[..k]);
            if k < |frames| - 1 then
              After(b, frames[k], CONTINUE) == Holding(frames[..k + 1]) && Offered(b, frames[k]).None?
            else
              After(b, frames[k], CONTINUE) == EMPTY && Offered(b, frames[k]) == Some(MessageOf(frames))
  {
    LinksOfMessage(frames, k);
    assert frames[..k] + [frames[k]] == frames[..k + 1];
    JoinedSnoc(frames[..k], frames[k]);
    assert frames[..|frames|] == frames;
  }

  /** What message tails may leave the builder expecting: nothing, or a continuation of the message. */
  ghost predicate ExpectsOwn(b: Builder, frames: seq<Frame>)
  {
    b.nextOffset == NO_OFFSET || b.nextOffset in Continuations(frames)
  }

  /** Frames from the `k`-th on of a message whose earlier frames all survived. */
  lemma {:induction false} IntactTail(frames: seq<Frame>, kept: seq<bool>, k: nat)
    requires CompleteChain(frames) && |kept| == |frames| && 1 <= k < |frames|
    ensures var b, rest := Holding(frames[..k]), Survivors(frames[k..], kept[k..]);
            && Deliveries(b, rest) == (if Intact(kept[k..]) then [MessageOf(frames)] else [])
            && ExpectsOwn(Feed(b, rest), frames)
    decreases |frames| - k
  {
    var b, f := Holding(frames[..k]), frames[k];
    var rest := Survivors(frames[k + 1..], kept[k + 1..]);
    SurvivorsFrom(frames, kept, k);
    if kept[k] {
      FeedAppends(b, [f], rest);
      HeldMiddle(frames, k);
      if k < |frames| - 1 {
        IntactTail(frames, kept, k + 1);
      } else {
        assert rest == [];
      }
    } else {
      LinksOfMessage(frames, k);
      forall j | k < j < |frames| ensures b.nextOffset != frames[j].offset {
        OffsetsGrow(frames, k, j);
      }
      BrokenTail(frames, kept, k + 1, b);
      assert b.nextOffset in Continuations(frames);
    }
  }

  lemma UnexpectedFrame(frames: seq<Frame>, k: nat, b: Builder, rest: seq<Frame>)
    requires CompleteChain(frames) && 1 <= k < |frames| && b.nextOffset != frames[k].offset
    ensures Deliveries(b, [frames[k]] + rest) == Deliveries(EMPTY, rest)
    ensures Feed(b, [frames[k]] + rest) == Feed(EMPTY, rest)
  {
    LinksOfMessage(frames, k);
    assert ([frames[k]] + rest)[1..] == rest;
  }

  /** Frames from the `k`-th on of a message, when the builder does not expect any of them. */
  lemma {:induction false} BrokenTail(frames: seq<Frame>, kept: seq<bool>, k: nat, b: Builder)
    requires CompleteChain(frames) && |kept| == |frames| && 1 <= k <= |frames|
    requires forall j | k <= j < |frames| :: b.nextOffset != frames[j].offset
    ensures var rest := Survivors(frames[k..], kept[k..]);
            && Deliveries(b, rest) == []
            && (Feed(b, rest).nextOffset == NO_OFFSET || Feed(b, rest) == b)
    decreases |frames| - k
  {
    if k < |frames| {
      SurvivorsFrom(frames, kept, k);
      if kept[k] {
        UnexpectedFrame(frames, k, b, Survivors(frames[k + 1..], kept[k + 1..]));
        BrokenTail(frames, kept, k + 1, EMPTY);
      } else {
        BrokenTail(frames, kept, k + 1, b);
      }
    }
  }

  lemma WholeFrameAlone(f: Frame, kept: seq<bool>, b: Builder)
    requires f.IsWhole() && |kept| == 1
    ensures Deliveries(b, Survivors([f], kept)) == (if Intact(kept) then [MessageOf([f])] else [])
    ensures Feed(b, Survivors([f], kept)) == b
  {
    assert kept == [kept[0]];
    JoinedSnoc([], f);
    assert [] + [f] == [f];
    assert Joined([f]) == f.payload;
  }

  lemma BeginIsHeld(frames: seq<Frame>, b: Builder)
    requires CompleteChain(frames)
    ensures After(b, frames[0], CONTINUE) == Holding(frames[..1]) && Offered(b, frames[0]).None?
  {
    assert frames[0] == frames[..|frames| - 1][0];
    JoinedSnoc([], frames[0]);
    assert [] + [frames[0]] == frames[..1];
  }

  /** One message with losses delivers itself if nothing was lost and nothing otherwise. */
  lemma OneLossyMessage(frames: seq<Frame>, kept: seq<bool>, b: Builder)
    requires IsMessage(frames) && |kept| == |frames| && b.nextOffset !in Continuations(frames)
    ensures var rest := Survivors(frames, kept);
            && Deliveries(b, rest) == (if Intact(kept) then [MessageOf(frames)] else [])
            && Feed(b, rest).nextOffset in Continuations(frames) + {NO_OFFSET, b.nextOffset}
  {
    if CompleteChain(frames) {
      var rest := Survivors(frames[1..], kept[1..]);
      BeginIsHeld(frames, b);
      if kept[0] {
        FeedAppends(b, [frames[0]], rest);
        IntactTail(frames, kept, 1);
        assert Intact(kept) <==> Intact(kept[1..]);
      } else {
        forall j | 1 <= j < |frames| ensures b.nextOffset != frames[j].offset {
          assert frames[j].offset in Continuations(frames);
        }
        BrokenTail(frames, kept, 1, b);
      }
    } else {
      assert frames == [frames[0]];
      WholeFrameAlone(frames[0], kept, b);
    }
  }

  /** Losing any frames of any messages: the survivors deliver, in order, exactly the messages all
      of whose frames survived, provided no two messages continue at the same offset. */
  lemma {:induction false} LossyReassemblyExact(messages: seq<seq<Frame>>, kept: seq<seq<bool>>, b: Builder)
    requires |kept| == |messages| && forall i | 0 <= i < |kept| :: |kept[i]| == |messages[i]|
    requires forall i | 0 <= i < |messages| :: IsMessage(messages[i])
    requires OffsetsApart(messages)
    requires forall i | 0 <= i < |messages| :: b.nextOffset !in Continuations(messages[i])
    ensures Deliveries(b, LossyFrames(messages, kept)) == IntactMessages(messages, kept)
  {
    if messages != [] {
      var first := Survivors(messages[0], kept[0]);
      OneLossyMessage(messages[0], kept[0], b);
      FeedAppends(b, first, LossyFrames(messages[1..], kept[1..]));
      LossyReassemblyExact(messages[1..], kept[1..], Feed(b, first));
    }
  }

  // ---- Offsets that collide ----

  ghost predicate Masks(kept: seq<seq<bool>>, messages: seq<seq<Frame>>)
  {
    |kept| == |messages| && forall i | 0 <= i < |kept| :: |kept[i]| == |messages[i]|
  }

  ghost predicate NothingKept(kept: seq<bool>) { true !in kept }

  lemma {:induction false} SurvivorsOfRange(frames: seq<Frame>, kept: seq<bool>, lo: nat, hi: nat)
    requires |kept| == |frames| && lo <= hi <= |frames|
    requires forall k | 0 <= k < |kept| :: kept[k] <==> lo <= k < hi
    ensures Survivors(frames, kept) == frames[lo..hi]
  {
    if |frames| > 0 {
      if lo > 0 {
        SurvivorsOfRange(frames[1..], kept[1..], lo - 1, hi - 1);
      } else {
        SurvivorsOfRange(frames[1..], kept[1..], 0, if hi == 0 then 0 else hi - 1);
        assert hi > 0 ==> frames[..hi] == [frames[0]] + frames[1..][..hi - 1];
      }
    }
  }

  /** When only messages `i` and `j` keep anything, their survivors are all there is. */
  lemma {:induction false} OnlyTwoSurvive(messages: seq<seq<Frame>>, kept: seq<seq<bool>>, i: int, j: int)
    requires Masks(kept, messages) && i < j
    requires forall x | 0 <= x < |kept| && x != i && x != j :: NothingKept(kept[x])
    ensures LossyFrames(messages, kept) ==
            (if 0 <= i < |kept| then Survivors(messages[i], kept[i]) else []) +
            (if 0 <= j < |kept| then Survivors(messages[j], kept[j]) else [])
    decreases |messages|
  {
    if |messages| > 0 {
      OnlyTwoSurvive(messages[1..], kept[1..], i - 1, j - 1);
      if i != 0 && j != 0 {
        SurvivorsOfRange(messages[0], kept[0], 0, 0);
      }
    }
  }

  lemma {:induction false} NoneIntact(messages: seq<seq<Frame>>, kept: seq<seq<bool>>)
    requires Masks(kept, messages) && forall i | 0 <= i < |messages| :: IsMessage(messages[i])
    requires forall i | 0 <= i < |kept| :: !Intact(kept[i])
    ensures IntactMessages(messages, kept) == []
  {
    if |messages| > 0 {
      NoneIntact(messages[1..], kept[1..]);
    }
  }

  lemma {:induction false} JoinedAppend(xs: seq<Frame>, ys: seq<Frame>)
    ensures Joined(xs + ys) == Joined(xs) + Joined(ys)
    decreases |ys|
  {
    if ys == [] {
      assert xs + ys == xs;
    } else {
      hide Joined;
      var init, last := ys[..|ys| - 1], ys[|ys| - 1];
      assert ys == init + [last] && xs + ys == (xs + init) + [last];
      JoinedSnoc(init, last);
      JoinedSnoc(xs + init, last);
      JoinedAppend(xs, init);
      assert Joined(xs) + Joined(init) + last.payload == Joined(xs) + (Joined(init) + last.payload);
    }
  }

  lemma JoinedOne(f: Frame)
    ensures Joined([f]) == f.payload
  {
    assert [f] == [] + [f];
    JoinedSnoc([], f);
  }

  /** A frame the builder expects is taken into it; the last of a message hands it over. */
  lemma ExpectedFrame(b: Builder, f: Frame)
    requires !f.IsWhole() && !f.Begins() && f.offset == b.nextOffset
    ensures Deliveries(b, [f]) == if f.Ends() then [Delivery(b.bytes + f.payload, f.position)] else []
    ensures !f.Ends() ==> Feed(b, [f]) == Builder(b.bytes + f.payload, f.NextOffset())
  {
  }

  /** A builder that expects frame `k` of a message takes the rest of it for its own. */
  lemma {:induction false} RestIsTaken(frames: seq<Frame>, k: nat, b: Builder)
    requires CompleteChain(frames) && 1 <= k < |frames| && b.nextOffset == frames[k].offset
    ensures Deliveries(b, frames[k..]) == [Delivery(b.bytes + Joined(frames[k..]), frames[|frames| - 1].position)]
    decreases |frames| - k
  {
    hide Joined, CompleteChain, Deliveries, Feed, After;
    var f := frames[k];
    LinksOfMessage(frames, k);
    JoinedOne(f);
    ExpectedFrame(b, f);
    if k + 1 < |frames| {
      assert frames[k..] == [f] + frames[k + 1..];
      FeedAppends(b, [f], frames[k + 1..]);
      JoinedAppend([f], frames[k + 1..]);
      LinksOfMessage(frames, k + 1);
      RestIsTaken(frames, k + 1, Feed(b, [f]));
      assert b.bytes + f.payload + Joined(frames[k + 1..]) == b.bytes + (f.payload + Joined(frames[k + 1..]));
    } else {
      assert frames[k..] == [f];
    }
  }

  lemma {:induction false} PrefixIsHeld(frames: seq<Frame>, k: nat, b: Builder)
    requires CompleteChain(frames) && 1 <= k < |frames|
    ensures Feed(b, frames[..k]) == Holding(frames[..k]) && Deliveries(b, frames[..k]) == []
  {
    assert frames[..k] == frames[..k - 1] + [frames[k - 1]];
    FeedAppends(b, frames[..k - 1], [frames[k - 1]]);
    JoinedSnoc(frames[..k - 1], frames[k - 1]);
    if k > 1 {
      PrefixIsHeld(frames, k - 1, b);
      LinksOfMessage(frames, k - 1);
    } else {
      assert frames[0] == frames[..|frames| - 1][0];
    }
  }

  /** Keep the frames below `a` of message `i` and those from `c` on of message `j`, and no others. */
  function HeadAndTail(messages: seq<seq<Frame>>, i: nat, j: nat, a: nat, c: nat): (kept: seq<seq<bool>>)
    ensures Masks(kept, messages)
  {
    seq(|messages|, x requires 0 <= x < |messages| => seq(|messages[x]|, k =>
        if x == i then k < a else if x == j then k >= c else false))
  }

  lemma HeadAndTailFrames(messages: seq<seq<Frame>>, i: nat, j: nat, a: nat, c: nat)
    requires i < j < |messages| && a <= |messages[i]| && c <= |messages[j]|
    ensures LossyFrames(messages, HeadAndTail(messages, i, j, a, c)) == messages[i][..a] + messages[j][c..]
  {
    hide LossyFrames, Survivors;
    var kept := HeadAndTail(messages, i, j, a, c);
    OnlyTwoSurvive(messages, kept, i, j);
    SurvivorsOfRange(messages[i], kept[i], 0, a);
    SurvivorsOfRange(messages[j], kept[j], c, |messages[j]|);
  }

  lemma HeadAndTailMix(first: seq<Frame>, second: seq<Frame>, a: nat, c: nat)
    requires CompleteChain(first) && CompleteChain(second)
    requires 1 <= a < |first| && 1 <= c < |second| && first[a].offset == second[c].offset
    ensures Deliveries(EMPTY, first[..a] + second[c..]) ==
            [Delivery(Joined(first[..a]) + Joined(second[c..]), second[|second| - 1].position)]
  {
    FeedAppends(EMPTY, first[..a], second[c..]);
    PrefixIsHeld(first, a, EMPTY);
    LinksOfMessage(first, a);
    RestIsTaken(second, c, Holding(first[..a]));
  }

  /** The head of one message and the tail of another make neither of the two, unless they agree in
      the tail or in the head. */
  lemma MixedPayload(first: seq<Frame>, second: seq<Frame>, a: nat, c: nat)
    requires a <= |first| && c <= |second|
    ensures var mixed := Joined(first[..a]) + Joined(second[c..]);
            && (mixed == Joined(first) <==> Joined(second[c..]) == Joined(first[a..]))
            && (mixed == Joined(second) <==> Joined(first[..a]) == Joined(second[..c]))
  {
    assert first == first[..a] + first[a..] && second == second[..c] + second[c..];
    JoinedAppend(first[..a], first[a..]);
    JoinedAppend(second[..c], second[c..]);
    SameSplit(Joined(first[..a]), Joined(second[c..]), Joined(first[a..]));
    SameSplitEnd(Joined(first[..a]), Joined(second[..c]), Joined(second[c..]));
  }

  lemma SameSplit(head: Bytes, xs: Bytes, ys: Bytes)
    ensures head + xs == head + ys <==> xs == ys
  {
    assert (head + xs)[|head|..] == xs && (head + ys)[|head|..] == ys;
  }

  lemma SameSplitEnd(xs: Bytes, ys: Bytes, tail: Bytes)
    ensures xs + tail == ys + tail <==> xs == ys
  {
    if xs + tail == ys + tail {
      assert |xs| == |ys|;
      assert (xs + tail)[..|xs|] == xs && (ys + tail)[..|ys|] == ys;
    }
  }

  /** Two messages that continue at one offset: lose the tail of the first, everything between, and
      the head of the second, and the reassembler delivers the head of the one joined to the tail of
      the other, though no message is intact. */
  lemma CollisionMixes(messages: seq<seq<Frame>>, i: nat, j: nat, a: nat, c: nat)
    requires forall x | 0 <= x < |messages| :: IsMessage(messages[x])
    requires i < j < |messages| && 1 <= a < |messages[i]| && 1 <= c < |messages[j]|
    requires messages[i][a].offset == messages[j][c].offset
    ensures var kept := HeadAndTail(messages, i, j, a, c);
            var mixed := Joined(messages[i][..a]) + Joined(messages[j][c..]);
            && IntactMessages(messages, kept) == []
            && Deliveries(EMPTY, LossyFrames(messages, kept)) ==
                 [Delivery(mixed, messages[j][|messages[j]| - 1].position)]
            && (mixed == Joined(messages[i]) <==> Joined(messages[j][c..]) == Joined(messages[i][a..]))
            && (mixed == Joined(messages[j]) <==> Joined(messages[i][..a]) == Joined(messages[j][..c]))
  {
    hide Joined, LossyFrames, CompleteChain, Deliveries, Survivors, IntactMessages;
    var kept := HeadAndTail(messages, i, j, a, c);
    assert IsMessage(messages[i]) && IsMessage(messages[j]);
    HeadAndTailFrames(messages, i, j, a, c);
    HeadAndTailMix(messages[i], messages[j], a, c);
    MixedPayload(messages[i], messages[j], a, c);
    NoneStaysIntact(messages, i, j, a, c);
    NoneIntact(messages, kept);
  }

  lemma NoneStaysIntact(messages: seq<seq<Frame>>, i: nat, j: nat, a: nat, c: nat)
    requires forall x | 0 <= x < |messages| :: IsMessage(messages[x])
    requires i < j < |messages| && 1 <= a < |messages[i]| && 1 <= c < |messages[j]|
    ensures forall x | 0 <= x < |messages| :: !Intact(HeadAndTail(messages, i, j, a, c)[x])
  {
    var kept := HeadAndTail(messages, i, j, a, c);
    forall x | 0 <= x < |kept| ensures !Intact(kept[x]) {
      assert IsMessage(messages[x]);
      assert !kept[x][if x == i then a else 0];
    }
  }

  ghost predicate ExactUnderLoss(messages: seq<seq<Frame>>)
    requires forall x | 0 <= x < |messages| :: IsMessage(messages[x])
  {
    forall kept | Masks(kept, messages) ::
      Deliveries(EMPTY, LossyFrames(messages, kept)) == IntactMessages(messages, kept)
  }

  /** Reassembly is exact under every loss if and only if no two messages continue at one offset. */
  lemma LossExactIffOffsetsApart(messages: seq<seq<Frame>>)
    requires forall x | 0 <= x < |messages| :: IsMessage(messages[x])
    ensures ExactUnderLoss(messages) <==> OffsetsApart(messages)
  {
    if OffsetsApart(messages) {
      forall kept | Masks(kept, messages)
        ensures Deliveries(EMPTY, LossyFrames(messages, kept)) == IntactMessages(messages, kept)
      {
        LossyReassemblyExact(messages, kept, EMPTY);
      }
    } else {
      var i, j :| 0 <= i < j < |messages| && !(Continuations(messages[i]) !! Continuations(messages[j]));
      var offset :| offset in Continuations(messages[i]) && offset in Continuations(messages[j]);
      var a :| 1 <= a < |messages[i]| && messages[i][a].offset == offset;
      var c :| 1 <= c < |messages[j]| && messages[j][c].offset == offset;
      CollisionMixes(messages, i, j, a, c);
      assert Masks(HeadAndTail(messages, i, j, a, c), messages);
    }
  }

  // ---- Aborted messages ----

  /** One frame handed over again and again, its message aborted `n` times before it is accepted: the
      builder in the end, and every message the handler was offered, the accepted one last. */
  function Redeliver(b: Builder, f: Frame, n: nat): (Builder, seq<Delivery>)
  {
    match Offered(b, f)
    case None => (After(b, f, CONTINUE), [])
    case Some(message) =>
      if n == 0 then (After(b, f, CONTINUE), [message])
      else
        var (last, offers) := Redeliver(After(b, f, ABORT), f, n - 1);
        (last, [message] + offers)
  }

  /** Frames each with the aborts its message meets: the final builder and the messages accepted. */
  function FeedAborting(b: Builder, frames: seq<Frame>, aborts: seq<nat>): (Builder, seq<Delivery>)
    requires |aborts| == |frames|
    decreases |frames|
  {
    if frames == [] then (b, [])
    else
      var (next, offers) := Redeliver(b, frames[0], aborts[0]);
      var (last, accepted) := FeedAborting(next, frames[1..], aborts[1..]);
      (last, (if offers == [] then [] else [offers[|offers| - 1]]) + accepted)
  }

  /** An abort undoes the frame: every redelivery offers the very same message, and when it is accepted
      the builder is as if it had been at once. */
  lemma {:induction false} RedeliveredIsSame(b: Builder, f: Frame, n: nat)
    ensures var (last, offers) := Redeliver(b, f, n);
            && last == After(b, f, CONTINUE)
            && |offers| == (if Offered(b, f).None? then 0 else n + 1)
            && forall k | 0 <= k < |offers| :: Some(offers[k]) == Offered(b, f)
  {
    if Offered(b, f).Some? && n > 0 {
      RedeliveredIsSame(After(b, f, ABORT), f, n - 1);
    }
  }

  /** Any finite pattern of aborts changes neither the builder nor what is accepted, once each and in order. */
  lemma {:induction false} AbortIsUndo(b: Builder, frames: seq<Frame>, aborts: seq<nat>)
    requires |aborts| == |frames|
    ensures FeedAborting(b, frames, aborts) == (Feed(b, frames), Deliveries(b, frames))
    decreases |frames|
  {
    if frames != [] {
      RedeliveredIsSame(b, frames[0], aborts[0]);
      AbortIsUndo(After(b, frames[0], CONTINUE), frames[1..], aborts[1..]);
      var offers := Redeliver(b, frames[0], aborts[0]).1;
      var accepted := Deliveries(After(b, frames[0], CONTINUE), frames[1..]);
      assert offers != [] ==> Some(offers[|offers| - 1]) == Offered(b, frames[0]);
      assert [] + accepted == accepted;
    }
  }

  // ---- Fragmenting payloads into one term ----

  /** A payload cut into pieces of at most `max` bytes. */
  function Chunks(payload: Bytes, max: nat): (r: seq<Bytes>)
    requires max > 0
    ensures |r| >= 1
    decreases |payload|
  {
    if |payload| <= max then [payload] else [payload[..max]] + Chunks(payload[max..], max)
  }

  /** Pieces laid out as aligned frames from a payload offset on, in a term that starts at `base`. */
  function Layout(chunks: seq<Bytes>, first: bool, offset: nat, base: int): (r: seq<Frame>)
    requires |chunks| >= 1
    ensures |r| == |chunks|
  {
    var flags: bv8 := (if first then BEGIN_FRAG else 0) | (if |chunks| == 1 then END_FRAG else 0);
    var frame := Frame(flags, offset, chunks[0], base + Align(offset + |chunks[0]|));
    [frame] + (if |chunks| == 1 then [] else Layout(chunks[1..], false, frame.NextOffset(), base))
  }

  /** Messages one after the other in one term. */
  function TermLayout(payloads: seq<Bytes>, max: nat, offset: nat, base: int): (r: seq<seq<Frame>>)
    requires max > 0
    ensures |r| == |payloads|
  {
    if |payloads| == 0 then []
    else
      var frames := Layout(Chunks(payloads[0], max), true, offset, base);
      [frames] + TermLayout(payloads[1..], max, frames[|frames| - 1].NextOffset(), base)
  }

  /** Middle frames and an END, each where the one before says. */
  ghost predicate ChainTail(tail: seq<Frame>)
  {
    && |tail| > 0
    && (forall k | 0 <= k < |tail| :: !tail[k].Begins() && !tail[k].IsWhole() && (tail[k].Ends() <==> k == |tail| - 1))
    && (forall k | 1 <= k < |tail| :: tail[k].offset == tail[k - 1].NextOffset())
  }

  ghost predicate Spans(frames: seq<Frame>, lo: nat, hi: nat)
  {
    forall k | 0 <= k < |frames| :: lo <= frames[k].offset < hi
  }

  lemma TailCons(f: Frame, tail: seq<Frame>)
    requires ChainTail(tail) && !f.Begins() && !f.Ends() && !f.IsWhole() && tail[0].offset == f.NextOffset()
    ensures ChainTail([f] + tail)
  {
  }

  lemma SpansCons(f: Frame, tail: seq<Frame>, hi: nat)
    requires Spans(tail, f.NextOffset(), hi) && f.offset < f.NextOffset() <= hi
    ensures Spans([f] + tail, f.offset, hi)
  {
    assert forall k | 1 <= k < |[f] + tail| :: ([f] + tail)[k] == tail[k - 1];
  }

  lemma {:induction false} LayoutTail(chunks: seq<Bytes>, offset: nat, base: int)
    requires |chunks| >= 1
    ensures var r := Layout(chunks, false, offset, base);
            r[0].offset == offset && ChainTail(r) && Spans(r, offset, r[|r| - 1].NextOffset())
  {
    hide Align;
    var r := Layout(chunks, false, offset, base);
    WholeIsBeginAndEnd(r[0]);
    if |chunks| > 1 {
      var tail := Layout(chunks[1..], false, r[0].NextOffset(), base);
      LayoutTail(chunks[1..], r[0].NextOffset(), base);
      assert r == [r[0]] + tail && r[|r| - 1] == tail[|tail| - 1];
      TailCons(r[0], tail);
      hide ChainTail, Layout;
      assert r[0].NextOffset() <= r[|r| - 1].NextOffset() by {
        assert tail[|tail| - 1].offset >= r[0].NextOffset();
      }
      hide Spans;
      SpansCons(r[0], tail, r[|r| - 1].NextOffset());
    }
  }

  function Concat(chunks: seq<Bytes>): Bytes
  {
    if |chunks| == 0 then [] else chunks[0] + Concat(chunks[1..])
  }

  lemma {:induction false} ChunksConcat(payload: Bytes, max: nat)
    requires max > 0
    ensures Concat(Chunks(payload, max)) == payload
    decreases |payload|
  {
    var chunks := Chunks(payload, max);
    if |payload| <= max {
      assert chunks[1..] == [];
    } else {
      ChunksConcat(payload[max..], max);
      assert chunks[1..] == Chunks(payload[max..], max);
      assert payload[..max] + payload[max..] == payload;
    }
  }

  lemma {:induction false} LayoutJoins(chunks: seq<Bytes>, first: bool, offset: nat, base: int)
    requires |chunks| >= 1
    ensures JoinedFront(Layout(chunks, first, offset, base)) == Concat(chunks)
  {
    var r := Layout(chunks, first, offset, base);
    if |chunks| > 1 {
      LayoutJoins(chunks[1..], false, r[0].NextOffset(), base);
      assert r[1..] == Layout(chunks[1..], false, r[0].NextOffset(), base);
    }
  }

  function JoinedFront(part: seq<Frame>): Bytes
  {
    if part == [] then [] else part[0].payload + JoinedFront(part[1..])
  }

  lemma {:induction false} JoinedEitherWay(part: seq<Frame>)
    ensures Joined(part) == JoinedFront(part)
    decreases |part|
  {
    if |part| > 1 {
      var init, last := part[..|part| - 1], part[|part| - 1];
      JoinedEitherWay(init);
      JoinedEitherWay(part[1..]);
      JoinedEitherWay(init[1..]);
      assert part[1..][..|part| - 2] == init[1..];
    }
  }

  lemma LayoutChains(chunks: seq<Bytes>, offset: nat, base: int)
    requires |chunks| >= 1
    ensures var r := Layout(chunks, true, offset, base);
            IsMessage(r) && Spans(r, offset, r[|r| - 1].NextOffset())
  {
    var r := Layout(chunks, true, offset, base);
    WholeIsBeginAndEnd(r[0]);
    if |chunks| > 1 {
      var tail := Layout(chunks[1..], false, r[0].NextOffset(), base);
      LayoutTail(chunks[1..], r[0].NextOffset(), base);
      BeginAndTail(r[0], tail);
      assert r == [r[0]] + tail;
    }
  }

  lemma BeginAndTail(f: Frame, tail: seq<Frame>)
    requires f.Begins() && !f.Ends() && !f.IsWhole() && ChainTail(tail) && tail[0].offset == f.NextOffset()
    ensures CompleteChain([f] + tail)
  {
    var r := [f] + tail;
    var init := r[..|tail|];
    assert init[0] == f;
    forall k | 1 <= k < |init| ensures !init[k].Begins() && init[k].offset == init[k - 1].NextOffset() {
      assert init[k] == tail[k - 1] && init[k - 1] == r[k - 1];
    }
  }

  /** Fragmenting a payload gives the frames of one message, which joined give the payload back. */
  lemma LayoutIsMessage(payload: Bytes, max: nat, offset: nat, base: int)
    requires max > 0
    ensures var r := Layout(Chunks(payload, max), true, offset, base);
            IsMessage(r) && MessageOf(r).payload == payload && Spans(r, offset, r[|r| - 1].NextOffset())
  {
    LayoutChains(Chunks(payload, max), offset, base);
    ChunksConcat(payload, max);
    LayoutJoins(Chunks(payload, max), true, offset, base);
    JoinedEitherWay(Layout(Chunks(payload, max), true, offset, base));
  }

  ghost predicate AllFrom(messages: seq<seq<Frame>>, offset: nat)
  {
    forall i, k | 0 <= i < |messages| && 0 <= k < |messages[i]| :: messages[i][k].offset >= offset
  }

  ghost predicate Carry(messages: seq<seq<Frame>>, payloads: seq<Bytes>)
  {
    && |messages| == |payloads|
    && forall i | 0 <= i < |messages| :: IsMessage(messages[i]) && MessageOf(messages[i]).payload == payloads[i]
  }

  lemma ApartFromLater(frames: seq<Frame>, rest: seq<seq<Frame>>, next: nat)
    requires Spans(frames, 0, next) && AllFrom(rest, next) && OffsetsApart(rest)
    ensures OffsetsApart([frames] + rest)
  {
    var all := [frames] + rest;
    forall i, j | 0 <= i < j < |all| ensures Continuations(all[i]) !! Continuations(all[j]) {
      if i > 0 {
        assert all[i] == rest[i - 1] && all[j] == rest[j - 1];
      } else {
        assert all[j] == rest[j - 1];
      }
    }
  }

  lemma {:induction false} TermOffsets(payloads: seq<Bytes>, max: nat, offset: nat, base: int)
    requires max > 0
    ensures var ms := TermLayout(payloads, max, offset, base);
            Carry(ms, payloads) && AllFrom(ms, offset) && OffsetsApart(ms)
  {
    if |payloads| > 0 {
      var frames := Layout(Chunks(payloads[0], max), true, offset, base);
      var next := frames[|frames| - 1].NextOffset();
      var rest := TermLayout(payloads[1..], max, next, base);
      LayoutIsMessage(payloads[0], max, offset, base);
      TermOffsets(payloads[1..], max, next, base);
      ApartFromLater(frames, rest, next);
      MessagesCons(frames, rest, payloads, offset, next);
    }
  }

  lemma MessagesCons(frames: seq<Frame>, rest: seq<seq<Frame>>, payloads: seq<Bytes>, offset: nat, next: nat)
    requires |payloads| > 0 && IsMessage(frames) && MessageOf(frames).payload == payloads[0]
    requires Carry(rest, payloads[1..]) && Spans(frames, offset, next) && AllFrom(rest, next) && offset <= next
    ensures Carry([frames] + rest, payloads) && AllFrom([frames] + rest, offset)
  {
    var all := [frames] + rest;
    forall i | 0 <= i < |all| ensures IsMessage(all[i]) && MessageOf(all[i]).payload == payloads[i] {
      assert i > 0 ==> all[i] == rest[i - 1];
    }
    forall i, k | 0 <= i < |all| && 0 <= k < |all[i]| ensures all[i][k].offset >= offset {
      assert i > 0 ==> all[i] == rest[i - 1];
    }
  }

  /** Fragment any payloads into aligned frames of one term and lose any of the frames: the
      survivors deliver, in order, exactly the messages all of whose frames survived. */
  lemma LossWithinOneTermIsExact(payloads: seq<Bytes>, max: nat, offset: nat, base: int)
    requires max > 0
    ensures var ms := TermLayout(payloads, max, offset, base);
            Carry(ms, payloads) && ExactUnderLoss(ms)
  {
    TermOffsets(payloads, max, offset, base);
    LossExactIffOffsetsApart(TermLayout(payloads, max, offset, base));
  }

  // ---- Two terms ----

  /** The first frame of a payload longer than one, and where the second starts. */
  lemma FirstFrame(payload: Bytes, max: nat, offset: nat, base: int)
    requires 0 < max < |payload|
    ensures var r := Layout(Chunks(payload, max), true, offset, base);
            && |r| >= 2 && r[0].payload == payload[..max] && r[1].offset == Align(offset + max + HEADER_LENGTH)
  {
    hide Align;
    assert Chunks(payload, max)[1..] == Chunks(payload[max..], max);
  }

  lemma SecondChunk(payload: Bytes, max: nat, offset: nat, base: int)
    requires 0 < max < |payload|
    ensures var r := Layout(Chunks(payload, max), true, offset, base);
            && |r| >= 2 && CompleteChain(r) && r[1].offset == Align(offset + max + HEADER_LENGTH)
            && Joined(r[..1]) == payload[..max] && Joined(r[1..]) == payload[max..]
  {
    hide Layout, Chunks, Joined, CompleteChain, Align;
    var r := Layout(Chunks(payload, max), true, offset, base);
    FirstFrame(payload, max, offset, base);
    LayoutIsMessage(payload, max, offset, base);
    assert r[..1] == [r[0]] && r == r[..1] + r[1..];
    JoinedOne(r[0]);
    JoinedAppend(r[..1], r[1..]);
    assert payload[..max] + payload[max..] == payload;
    SameSplit(payload[..max], Joined(r[1..]), payload[max..]);
  }

  /** Term offsets start anew in every term: of any two payloads longer than a frame, laid out at the
      same offset of two terms, a loss leaves the head of the one joined to the tail of the other. So
      reassembly is not exact across terms. */
  lemma TermsCollide(payload: Bytes, later: Bytes, max: nat, offset: nat, base: int, laterBase: int)
    requires 0 < max < |payload| && max < |later|
    ensures var ms := TermLayout([payload], max, offset, base) + TermLayout([later], max, offset, laterBase);
            && Carry(ms, [payload, later]) && !OffsetsApart(ms) && !ExactUnderLoss(ms)
            && var survivors := LossyFrames(ms, HeadAndTail(ms, 0, 1, 1, 1));
            && |Deliveries(EMPTY, survivors)| == 1
            && Deliveries(EMPTY, survivors)[0].payload == payload[..max] + later[max..]
  {
    hide Layout, Chunks, Joined, CompleteChain, LossyFrames;
    var first := Layout(Chunks(payload, max), true, offset, base);
    var second := Layout(Chunks(later, max), true, offset, laterBase);
    OneInTerm(payload, max, offset, base);
    OneInTerm(later, max, offset, laterBase);
    var ms := TermLayout([payload], max, offset, base) + TermLayout([later], max, offset, laterBase);
    assert ms == [first, second];
    SecondChunk(payload, max, offset, base);
    SecondChunk(later, max, offset, laterBase);
    LayoutIsMessage(payload, max, offset, base);
    LayoutIsMessage(later, max, offset, laterBase);
    CollisionMixes(ms, 0, 1, 1, 1);
    LossExactIffOffsetsApart(ms);
    assert first[1].offset in Continuations(ms[0]) && second[1].offset in Continuations(ms[1]);
  }

  lemma OneInTerm(payload: Bytes, max: nat, offset: nat, base: int)
    requires max > 0
    ensures TermLayout([payload], max, offset, base) == [Layout(Chunks(payload, max), true, offset, base)]
  {
  }

  /** Two such payloads, of which the message delivered is neither. */
  lemma CollisionExists()
    ensures var ms := TermLayout([[1, 2]], 1, 32, 0) + TermLayout([[3, 4]], 1, 32, 65536);
            var survivors := LossyFrames(ms, HeadAndTail(ms, 0, 1, 1, 1));
            && Carry(ms, [[1, 2], [3, 4]]) && |Deliveries(EMPTY, survivors)| == 1
            && Deliveries(EMPTY, survivors)[0].payload == [1, 4]
  {
    hide *;
    var payload: Bytes, later: Bytes := [1, 2], [3, 4];
    TermsCollide(payload, later, 1, 32, 0, 65536);
    assert payload[..1] + later[1..] == [1, 4];
  }
}
