/** The fragment reassembler of the log adapter, as a function of the builder it keeps. */
module Reassembly {
  import opened Aeron

  const NO_OFFSET := -1

  /** The adapter's buffer builder: the bytes below its limit, and the offset it expects next. */
  datatype Builder = Builder(bytes: Bytes, nextOffset: int)

  const EMPTY := Builder([], NO_OFFSET)

  datatype Delivery = Delivery(payload: Bytes, position: int)

  /** The message a frame hands to the handler, if it completes one. */
  function Offered(b: Builder, f: Frame): Option<Delivery>
  {
    if f.IsWhole() then Some(Delivery(f.payload, f.position))
    else if f.Begins() then None
    else if f.offset == b.nextOffset && f.Ends() then Some(Delivery(b.bytes + f.payload, f.position))
    else None
  }

  /** The builder after a frame, given what the handler answered to the message it completed. */
  function After(b: Builder, f: Frame, action: Action): Builder
  {
    if f.IsWhole() then b
    else if f.Begins() then Builder(f.payload, f.NextOffset())
    else if f.offset == b.nextOffset then
      if f.Ends() then
        match action
        case ABORT => b
        case THROWN => Builder(b.bytes + f.payload, b.nextOffset)
        case _ => EMPTY
      else
        Builder(b.bytes + f.payload, f.NextOffset())
    else EMPTY
  }

  /** The builder after frames the handler all accepts. */
  function Feed(b: Builder, frames: seq<Frame>): Builder
    decreases |frames|
  {
    if frames == [] then b else Feed(After(b, frames[0], CONTINUE), frames[1..])
  }

  /** The messages handed to a handler that accepts them all, in order. */
  function Deliveries(b: Builder, frames: seq<Frame>): seq<Delivery>
    decreases |frames|
  {
    if frames == [] then []
    else
      var rest := Deliveries(After(b, frames[0], CONTINUE), frames[1..]);
      match Offered(b, frames[0])
      case Some(d) => [d] + rest
      case None => rest
  }

  lemma {:induction false} FeedAppends(b: Builder, xs: seq<Frame>, ys: seq<Frame>)
    ensures Feed(b, xs + ys) == Feed(Feed(b, xs), ys)
    ensures Deliveries(b, xs + ys) == Deliveries(b, xs) + Deliveries(Feed(b, xs), ys)
    decreases |xs|
  {
    if xs == [] {
      assert xs + ys == ys;
    } else {
      assert (xs + ys)[1..] == xs[1..] + ys;
      FeedAppends(After(b, xs[0], CONTINUE), xs[1..], ys);
    }
  }

  // ---- What a message looks like as frames ----

  function Joined(part: seq<Frame>): Bytes
  {
    if part == [] then [] else Joined(part[..|part| - 1]) + part[|part| - 1].payload
  }

  /** The frames of an unfinished message: a BEGIN, then middle frames, each where the one before says. */
  ghost predicate OpenChain(part: seq<Frame>)
  {
    && part != []
    && part[0].Begins()
    && (forall k | 0 <= k < |part| :: !part[k].IsWhole() && !part[k].Ends())
    && (forall k | 1 <= k < |part| :: !part[k].Begins() && part[k].offset == part[k - 1].NextOffset())
  }

  /** The frames of a finished message: an open chain and its END. */
  ghost predicate CompleteChain(part: seq<Frame>)
  {
    && |part| >= 2
    && var last := part[|part| - 1];
    && OpenChain(part[..|part| - 1])
    && !last.Begins() && last.Ends() && last.offset == part[|part| - 2].NextOffset()
  }

  ghost function Holding(part: seq<Frame>): Builder
    requires part != []
  {
    Builder(Joined(part), part[|part| - 1].NextOffset())
  }

  /** The frames of one message in a log: a single unfragmented frame or a complete chain. */
  ghost predicate IsMessage(frames: seq<Frame>)
  {
    (|frames| == 1 && frames[0].IsWhole()) || CompleteChain(frames)
  }

  ghost function MessageOf(frames: seq<Frame>): Delivery
    requires |frames| > 0
  {
    Delivery(Joined(frames), frames[|frames| - 1].position)
  }
}
